/** Who watches what, while adopters, teardowns, boot resumes and the watchers
    themselves interleave. Every shared map, the two write locks and the health
    registry are in the state; one action is what runs between two suspensions. */
module Lifecycle {
  import opened Basics
  import opened Targets

  datatype Kind = Slots | Shares

  /** A key of the watcher maps: `account_watchers` or `shared_watchers`. */
  datatype Key = Key(chat: int, kind: Kind, id: string) {
    function Target(): WatchTarget {
      if kind.Slots? then WatchTarget.Slot(id, "") else WatchTarget.Shared(id, "")
    }

    function HealthKey(): string {
      Target().HealthKey(chat)
    }
  }

  /** `Leaving`: the watcher saw its target gone and will deregister without
      suspending again, so an abort no longer stops that. */
  datatype Stage = Running | Leaving | Exited
  datatype Task = Task(key: Key, stage: Stage, aborted: bool)

  /** adopt_account, adopt_shared: the write lock is held from `Free` to `Stored`. */
  datatype AdoptStep =
    | Waiting            // for the write lock on the watcher map
    | Free               // the key had no handle
    | Cached             // the client is in the client map
    | Registered         // spawn has registered the health entry
    | Started(task: nat) // the task runs, its handle is not stored yet
    | Stored             // the handle is stored; the topic is being made

  /** resume_target_with, after register_persisted_targets. */
  datatype ResumeStep =
    | Booting            // about to register the entry
    | Checking           // about to read the store
    | GivingUp           // the target was gone; about to deregister
    | Peeking            // about to look for a handle
    | Connecting

  /** client_for_account, client_for_shared. */
  datatype LookupStep = Looking | Dialing | Caching

  datatype Actor =
    | Adopting(key: Key, adopt: AdoptStep)
    | Resuming(key: Key, resume: ResumeStep)
    | LookingUp(key: Key, lookup: LookupStep)
    | Sweeping(chat: int, done: nat)   // forget: five steps
    | Dropping(key: Key, done: nat)    // forget_account, forget_shared: three steps
    | Finished(adopted: bool)

  datatype State = State(
    active: set<Key>,             // targets the store still has
    clients: set<Key>,
    watchers: map<Key, nat>,      // key -> task whose handle is stored
    owner: map<Kind, nat>,        // which actor holds a map's write lock
    health: set<string>,
    tasks: seq<Task>,
    actors: seq<Actor>)

  datatype Action =
    | Begin(actor: Actor)
    | Move(i: nat)
    | ConnectFails(i: nat)
    | Opt(key: Key, on: bool)     // the store gains or loses a target
    | Leave(t: nat)
    | Deregister(t: nat)
    | Cut(t: nat)                 // an abort takes effect

  predicate Holds(a: Actor, kind: Kind) {
    a.Adopting? && a.key.kind == kind && !a.adopt.Waiting?
  }

  /** How a call begins. */
  predicate Entry(a: Actor) {
    match a
    case Adopting(_, at) => at.Waiting?
    case Resuming(_, at) => at.Booting?
    case LookingUp(_, at) => at.Looking?
    case Sweeping(_, n) => n == 0
    case Dropping(_, n) => n == 0
    case Finished(_) => false
  }

  /** An actor can move unless it is done or waits for a lock. */
  predicate CanMove(s: State, a: Actor) {
    match a
    case Adopting(k, at) => at.Waiting? ==> k.kind !in s.owner
    case Resuming(k, at) => at.Peeking? ==> k.kind !in s.owner
    case LookingUp(_, _) => true
    case Sweeping(_, n) => n < 5 && (n == 2 ==> Slots !in s.owner) && (n == 4 ==> Shares !in s.owner)
    case Dropping(k, n) => n < 3 && (n == 2 ==> k.kind !in s.owner)
    case Finished(_) => false
  }

  predicate CanFail(a: Actor) {
    (a.Resuming? && a.resume.Connecting?) || (a.LookingUp? && a.lookup.Dialing?)
  }

  predicate Enabled(s: State, a: Action) {
    match a
    case Begin(actor) => Entry(actor)
    case Move(i) => i < |s.actors| && CanMove(s, s.actors[i])
    case ConnectFails(i) => i < |s.actors| && CanFail(s.actors[i])
    case Opt(_, _) => true
    case Leave(t) => t < |s.tasks| && s.tasks[t].stage.Running? && s.tasks[t].key !in s.active
    case Deregister(t) => t < |s.tasks| && s.tasks[t].stage.Leaving?
    case Cut(t) => t < |s.tasks| && s.tasks[t].stage.Running? && s.tasks[t].aborted
  }

  /** The keys a teardown step is about. */
  datatype Range = OfChat(chat: int, kind: Kind) | Just(key: Key) {
    predicate Covers(k: Key) {
      if OfChat? then k.chat == chat && k.kind == kind else k == key
    }
  }

  /** Removes the handles of some keys and aborts their tasks. */
  function WithoutHandles(s: State, drop: Range): State {
    s.(watchers := map k | k in s.watchers && !drop.Covers(k) :: s.watchers[k],
       tasks := seq(|s.tasks|, i requires 0 <= i < |s.tasks| =>
         if s.tasks[i].key in s.watchers && s.watchers[s.tasks[i].key] == i && drop.Covers(s.tasks[i].key)
         then s.tasks[i].(aborted := true) else s.tasks[i]))
  }

  function WithoutClients(s: State, drop: Range): State {
    s.(clients := set k | k in s.clients && !drop.Covers(k))
  }

  /** The five steps of `forget`. */
  function Sweep(s: State, chat: int, n: nat): State {
    if n == 0 then s.(health := set h | h in s.health && !KeyOfChat(h, chat))
    else if n == 1 then WithoutClients(s, OfChat(chat, Slots))
    else if n == 2 then WithoutHandles(s, OfChat(chat, Slots))
    else if n == 3 then WithoutClients(s, OfChat(chat, Shares))
    else WithoutHandles(s, OfChat(chat, Shares))
  }

  /** The three steps of `forget_account` and `forget_shared` for one key. */
  function Drop(s: State, key: Key, n: nat): State {
    if n == 0 then s.(health := s.health - {key.HealthKey()})
    else if n == 1 then WithoutClients(s, Just(key))
    else WithoutHandles(s, Just(key))
  }

  function AdoptEffect(s: State, i: nat, k: Key, at: AdoptStep): State {
    match at
    case Waiting => if k in s.watchers then s else s.(owner := s.owner[k.kind := i])
    case Free => s.(clients := s.clients + {k})
    case Cached => s.(health := s.health + {k.HealthKey()})
    case Registered => s.(tasks := s.tasks + [Task(k, Running, false)])
    case Started(t) => s.(watchers := s.watchers[k := t])
    case Stored => s.(owner := s.owner - {k.kind})
  }

  function AfterAdopt(s: State, k: Key, at: AdoptStep): Actor {
    match at
    case Waiting => if k in s.watchers then Finished(false) else Adopting(k, Free)
    case Free => Adopting(k, Cached)
    case Cached => Adopting(k, Registered)
    case Registered => Adopting(k, Started(|s.tasks|))
    case Started(_) => Adopting(k, Stored)
    case Stored => Finished(true)
  }

  function ResumeEffect(s: State, k: Key, at: ResumeStep): State {
    if at.Booting? then s.(health := s.health + {k.HealthKey()})
    else if at.GivingUp? then s.(health := s.health - {k.HealthKey()})
    else s
  }

  function AfterResume(s: State, k: Key, at: ResumeStep): Actor {
    match at
    case Booting => Resuming(k, Checking)
    case Checking => Resuming(k, if k in s.active then Peeking else GivingUp)
    case GivingUp => Finished(false)
    case Peeking => if k in s.watchers then Finished(false) else Resuming(k, Connecting)
    case Connecting => Adopting(k, Waiting)
  }

  function AfterLookup(s: State, k: Key, at: LookupStep): Actor {
    match at
    case Looking => if k in s.clients || k !in s.active then Finished(false) else LookingUp(k, Dialing)
    case Dialing => LookingUp(k, Caching)
    case Caching => Finished(false)
  }

  /** What the shared state becomes when actor `i` moves. */
  function Effect(s: State, i: nat): State
    requires i < |s.actors|
  {
    match s.actors[i]
    case Adopting(k, at) => AdoptEffect(s, i, k, at)
    case Resuming(k, at) => ResumeEffect(s, k, at)
    case LookingUp(k, at) => if at.Caching? then s.(clients := s.clients + {k}) else s
    case Sweeping(chat, n) => Sweep(s, chat, n)
    case Dropping(k, n) => Drop(s, k, n)
    case Finished(_) => s
  }

  /** Where actor `i` stands afterwards. */
  function After(s: State, i: nat): Actor
    requires i < |s.actors|
  {
    match s.actors[i]
    case Adopting(k, at) => AfterAdopt(s, k, at)
    case Resuming(k, at) => AfterResume(s, k, at)
    case LookingUp(k, at) => AfterLookup(s, k, at)
    case Sweeping(chat, n) => Sweeping(chat, n + 1)
    case Dropping(k, n) => Dropping(k, n + 1)
    case Finished(b) => Finished(b)
  }

  function AfterFailure(a: Actor): Actor {
    if a.Resuming? then Resuming(a.key, Checking) else Finished(false)
  }

  function Next(s: State, a: Action): State
    requires Enabled(s, a)
  {
    match a
    case Begin(actor) => s.(actors := s.actors + [actor])
    case Move(i) => Effect(s, i).(actors := s.actors[i := After(s, i)])
    case ConnectFails(i) =>
      s.(actors := s.actors[i := AfterFailure(s.actors[i])])
    case Opt(k, on) => s.(active := if on then s.active + {k} else s.active - {k})
    case Leave(t) => s.(tasks := s.tasks[t := s.tasks[t].(stage := Leaving)])
    case Deregister(t) =>
      s.(health := s.health - {s.tasks[t].key.HealthKey()}, tasks := s.tasks[t := s.tasks[t].(stage := Exited)])
    case Cut(t) => s.(tasks := s.tasks[t := s.tasks[t].(stage := Exited)])
  }

  function Init(active: set<Key>): State {
    State(active, {}, map[], map[], {}, [], [])
  }

  ghost predicate Reaches(s: State, actions: seq<Action>, s': State)
    decreases |actions|
  {
    if actions == [] then s == s' else
      Enabled(s, actions[0]) && Reaches(Next(s, actions[0]), actions[1..], s')
  }

  /** A watcher that runs and that nobody has aborted. */
  predicate Live(s: State, t: nat) {
    t < |s.tasks| && s.tasks[t].stage.Running? && !s.tasks[t].aborted
  }

  // ---- Invariant ----

  /** A held lock has its holder, and only the recorded holder holds it. */
  ghost predicate LocksOk(owner: map<Kind, nat>, actors: seq<Actor>) {
    && (forall k :: k in owner ==> owner[k] < |actors| && Holds(actors[owner[k]], k))
    && (forall i, k :: 0 <= i < |actors| && Holds(actors[i], k) ==> k in owner && owner[k] == i)
  }

  predicate HandleOf(s: State, t: nat)
    requires t < |s.tasks|
  {
    var k := s.tasks[t].key;
    k in s.watchers && s.watchers[k] == t
  }

  /** The lock's holder has started task `t` and is about to store its handle. */
  predicate AboutToStore(s: State, t: nat)
    requires t < |s.tasks|
  {
    var k := s.tasks[t].key;
    k.kind in s.owner && s.owner[k.kind] < |s.actors| && s.actors[s.owner[k.kind]] == Adopting(k, Started(t))
  }

  predicate AdopterOk(s: State, a: Actor) {
    a.Adopting? && !a.adopt.Waiting? && !a.adopt.Stored? ==>
      && a.key !in s.watchers
      && (a.adopt.Started? ==>
            a.adopt.task < |s.tasks| && s.tasks[a.adopt.task].key == a.key && !s.tasks[a.adopt.task].aborted)
  }

  ghost predicate AdoptersOk(s: State) {
    forall i :: 0 <= i < |s.actors| ==> AdopterOk(s, s.actors[i])
  }

  ghost predicate HandlesOk(s: State) {
    && (forall k :: k in s.watchers ==>
          s.watchers[k] < |s.tasks| && s.tasks[s.watchers[k]].key == k && !s.tasks[s.watchers[k]].aborted)
    && (forall t :: 0 <= t < |s.tasks| && !s.tasks[t].aborted ==> HandleOf(s, t) || AboutToStore(s, t))
  }

  ghost predicate Inv(s: State) {
    LocksOk(s.owner, s.actors) && AdoptersOk(s) && HandlesOk(s)
  }

  lemma SameLocks(owner: map<Kind, nat>, actors: seq<Actor>, i: nat, b: Actor)
    requires LocksOk(owner, actors) && i < |actors|
    requires forall k :: Holds(b, k) == Holds(actors[i], k)
    ensures LocksOk(owner, actors[i := b])
  {
  }

  lemma TakenLock(owner: map<Kind, nat>, actors: seq<Actor>, i: nat, b: Actor, kind: Kind)
    requires LocksOk(owner, actors) && i < |actors| && kind !in owner
    requires forall k :: !Holds(actors[i], k)
    requires forall k :: Holds(b, k) <==> k == kind
    ensures LocksOk(owner[kind := i], actors[i := b])
  {
  }

  lemma GivenLock(owner: map<Kind, nat>, actors: seq<Actor>, i: nat, b: Actor, kind: Kind)
    requires LocksOk(owner, actors) && i < |actors|
    requires forall k :: Holds(actors[i], k) <==> k == kind
    requires forall k :: !Holds(b, k)
    ensures LocksOk(owner - {kind}, actors[i := b])
  {
    assert Holds(actors[i], kind);
  }

  lemma LocksKeptByMove(s: State, i: nat)
    requires LocksOk(s.owner, s.actors) && i < |s.actors| && CanMove(s, s.actors[i])
    ensures LocksOk(Effect(s, i).owner, s.actors[i := After(s, i)])
  {
    var a := s.actors[i];
    if a.Adopting? && a.adopt.Waiting? && a.key !in s.watchers {
      TakenLock(s.owner, s.actors, i, After(s, i), a.key.kind);
    } else if a.Adopting? && a.adopt.Stored? {
      GivenLock(s.owner, s.actors, i, After(s, i), a.key.kind);
    } else {
      SameLocks(s.owner, s.actors, i, After(s, i));
    }
  }

  lemma LocksKept(s: State, a: Action)
    requires LocksOk(s.owner, s.actors) && Enabled(s, a)
    ensures LocksOk(Next(s, a).owner, Next(s, a).actors)
  {
    match a
    case Move(i) => LocksKeptByMove(s, i);
    case _ =>
  }

  /** Handles only go, tasks only come, and an abort comes with its handle going. */
  ghost predicate Shrinks(s: State, s': State) {
    && (forall k :: k in s'.watchers ==> k in s.watchers && s'.watchers[k] == s.watchers[k])
    && |s.tasks| <= |s'.tasks|
    && (forall t :: 0 <= t < |s.tasks| ==>
          s'.tasks[t].key == s.tasks[t].key && (s.tasks[t].aborted ==> s'.tasks[t].aborted))
    && (forall t :: 0 <= t < |s.tasks| && s'.tasks[t].aborted && !s.tasks[t].aborted ==>
          HandleOf(s, t) && s.tasks[t].key !in s'.watchers)
    && (forall k :: k in s.watchers && k !in s'.watchers && s.watchers[k] < |s.tasks| ==>
          s'.tasks[s.watchers[k]].aborted)
  }

  lemma RemovalShrinks(s: State, drop: Range)
    requires HandlesOk(s)
    ensures Shrinks(s, WithoutHandles(s, drop))
    ensures |WithoutHandles(s, drop).tasks| == |s.tasks|
  {
  }

  predicate StartedAt(a: Actor, t: nat) {
    a.Adopting? && a.adopt == Started(t)
  }

  /** A step that only takes handles away, and in which no adopter that has a task
      in hand moves, keeps the invariant. */
  lemma ShrinkKeeps(s: State, s': State)
    requires AdoptersOk(s) && HandlesOk(s) && Shrinks(s, s') && |s'.tasks| == |s.tasks|
    requires |s.actors| <= |s'.actors|
    requires forall i :: 0 <= i < |s'.actors| ==>
               (i < |s.actors| && s'.actors[i] == s.actors[i]) || AdopterOk(s', s'.actors[i])
    requires forall i, t :: 0 <= i < |s.actors| && StartedAt(s.actors[i], t) ==>
               && s'.actors[i] == s.actors[i]
               && (forall k :: k in s.owner && s.owner[k] == i ==> k in s'.owner && s'.owner[k] == i)
    ensures AdoptersOk(s') && HandlesOk(s')
  {
    forall i | 0 <= i < |s'.actors|
      ensures AdopterOk(s', s'.actors[i])
    {
      if i < |s.actors| && s'.actors[i] == s.actors[i] {
        assert AdopterOk(s, s.actors[i]);
      }
    }
    forall t | 0 <= t < |s'.tasks| && !s'.tasks[t].aborted
      ensures HandleOf(s', t) || AboutToStore(s', t)
    {
      assert !s.tasks[t].aborted;
      if AboutToStore(s, t) {
        assert StartedAt(s.actors[s.owner[s.tasks[t].key.kind]], t);
      }
    }
  }

  /** Spawning: the new task is the adopter's, which holds the lock. */
  lemma StartKeeps(s: State, i: nat)
    requires Inv(s) && i < |s.actors| && s.actors[i].Adopting? && s.actors[i].adopt.Registered?
    ensures AdoptersOk(Next(s, Move(i))) && HandlesOk(Next(s, Move(i)))
  {
    var k, s' := s.actors[i].key, Next(s, Move(i));
    assert Holds(s.actors[i], k.kind);
    forall t | 0 <= t < |s'.tasks| && !s'.tasks[t].aborted
      ensures HandleOf(s', t) || AboutToStore(s', t)
    {
      if t < |s.tasks| {
        assert HandleOf(s, t) || AboutToStore(s, t);
      }
    }
    forall j | 0 <= j < |s'.actors|
      ensures AdopterOk(s', s'.actors[j])
    {
      assert AdopterOk(s, s.actors[j]);
    }
  }

  /** Storing the handle: no other adopter is past the check for this key. */
  lemma StoreKeeps(s: State, i: nat)
    requires Inv(s) && i < |s.actors| && s.actors[i].Adopting? && s.actors[i].adopt.Started?
    ensures AdoptersOk(Next(s, Move(i))) && HandlesOk(Next(s, Move(i)))
  {
    var k, s' := s.actors[i].key, Next(s, Move(i));
    assert AdopterOk(s, s.actors[i]);
    assert Holds(s.actors[i], k.kind);
    forall t | 0 <= t < |s'.tasks| && !s'.tasks[t].aborted
      ensures HandleOf(s', t) || AboutToStore(s', t)
    {
      assert HandleOf(s, t) || AboutToStore(s, t);
    }
    forall j | 0 <= j < |s'.actors|
      ensures AdopterOk(s', s'.actors[j])
    {
      assert AdopterOk(s, s.actors[j]);
      if j != i && s.actors[j].Adopting? && !s.actors[j].adopt.Waiting? {
        assert Holds(s.actors[j], s.actors[j].key.kind);
      }
    }
  }

  /** Taking and giving back the lock, and the two steps in between. */
  lemma LockMovesKeep(s: State, i: nat)
    requires Inv(s) && i < |s.actors| && s.actors[i].Adopting? && CanMove(s, s.actors[i])
    requires s.actors[i].adopt.Waiting? || s.actors[i].adopt.Stored?
    ensures AdoptersOk(Next(s, Move(i))) && HandlesOk(Next(s, Move(i)))
  {
    assert s.actors[i].adopt.Stored? ==> Holds(s.actors[i], s.actors[i].key.kind);
    ShrinkKeeps(s, Next(s, Move(i)));
  }

  lemma CacheAndRegisterKeep(s: State, i: nat)
    requires Inv(s) && i < |s.actors| && s.actors[i].Adopting? && (s.actors[i].adopt.Free? || s.actors[i].adopt.Cached?)
    ensures AdoptersOk(Next(s, Move(i))) && HandlesOk(Next(s, Move(i)))
  {
    assert AdopterOk(s, s.actors[i]);
    ShrinkKeeps(s, Next(s, Move(i)));
  }

  lemma AdoptKeeps(s: State, i: nat)
    requires Inv(s) && i < |s.actors| && s.actors[i].Adopting? && CanMove(s, s.actors[i])
    ensures AdoptersOk(Next(s, Move(i))) && HandlesOk(Next(s, Move(i)))
  {
    match s.actors[i].adopt
    case Registered => StartKeeps(s, i);
    case Started(_) => StoreKeeps(s, i);
    case Free => CacheAndRegisterKeep(s, i);
    case Cached => CacheAndRegisterKeep(s, i);
    case Waiting => LockMovesKeep(s, i);
    case Stored => LockMovesKeep(s, i);
  }

  lemma SweepKeeps(s: State, i: nat)
    requires Inv(s) && i < |s.actors| && s.actors[i].Sweeping? && CanMove(s, s.actors[i])
    ensures AdoptersOk(Next(s, Move(i))) && HandlesOk(Next(s, Move(i)))
  {
    RemovalShrinks(s, OfChat(s.actors[i].chat, if s.actors[i].done == 2 then Slots else Shares));
    ShrinkKeeps(s, Next(s, Move(i)));
  }

  lemma DropKeeps(s: State, i: nat)
    requires Inv(s) && i < |s.actors| && s.actors[i].Dropping? && CanMove(s, s.actors[i])
    ensures AdoptersOk(Next(s, Move(i))) && HandlesOk(Next(s, Move(i)))
  {
    RemovalShrinks(s, Just(s.actors[i].key));
    ShrinkKeeps(s, Next(s, Move(i)));
  }

  lemma MoveKeeps(s: State, i: nat)
    requires Inv(s) && i < |s.actors| && CanMove(s, s.actors[i])
    ensures AdoptersOk(Next(s, Move(i))) && HandlesOk(Next(s, Move(i)))
  {
    if s.actors[i].Adopting? {
      AdoptKeeps(s, i);
    } else if s.actors[i].Sweeping? {
      SweepKeeps(s, i);
    } else if s.actors[i].Dropping? {
      DropKeeps(s, i);
    } else {
      ShrinkKeeps(s, Next(s, Move(i)));
    }
  }

  lemma OtherStepsKeep(s: State, a: Action)
    requires Inv(s) && Enabled(s, a) && !a.Move?
    ensures AdoptersOk(Next(s, a)) && HandlesOk(Next(s, a))
  {
    ShrinkKeeps(s, Next(s, a));
  }

  lemma StepKeeps(s: State, a: Action)
    requires Inv(s) && Enabled(s, a)
    ensures Inv(Next(s, a))
  {
    LocksKept(s, a);
    if a.Move? {
      MoveKeeps(s, a.i);
    } else {
      OtherStepsKeep(s, a);
    }
  }

  lemma {:induction false} RunsKeep(s: State, actions: seq<Action>, s': State)
    requires Inv(s) && Reaches(s, actions, s')
    ensures Inv(s')
    decreases |actions|
  {
    if actions != [] {
      StepKeeps(s, actions[0]);
      RunsKeep(Next(s, actions[0]), actions[1..], s');
    }
  }

  ghost predicate Reachable(s: State) {
    exists active, actions :: Reaches(Init(active), actions, s)
  }

  lemma ReachableKeeps(s: State)
    requires Reachable(s)
    ensures Inv(s)
  {
    var active, actions :| Reaches(Init(active), actions, s);
    RunsKeep(Init(active), actions, s);
  }

  /** At every moment of every interleaving a key has at most one watcher that nobody
      has aborted, and it is the one whose handle is stored, or the one whose adopter
      still holds the lock to store it. Each stored handle is of such a watcher. */
  lemma AtMostOneWatcher(s: State)
    requires Reachable(s)
    ensures forall t: nat :: Live(s, t) ==> HandleOf(s, t) || AboutToStore(s, t)
    ensures forall t: nat, u: nat :: Live(s, t) && Live(s, u) && s.tasks[t].key == s.tasks[u].key ==> t == u
    ensures forall k :: k in s.watchers ==>
              s.watchers[k] < |s.tasks| && s.tasks[s.watchers[k]].key == k && !s.tasks[s.watchers[k]].aborted
  {
    ReachableKeeps(s);
    forall t: nat, u: nat | Live(s, t) && Live(s, u) && s.tasks[t].key == s.tasks[u].key
      ensures t == u
    {
      assert HandleOf(s, t) || AboutToStore(s, t);
      assert HandleOf(s, u) || AboutToStore(s, u);
      var kind := s.tasks[t].key.kind;
      if kind in s.owner && s.owner[kind] < |s.actors| {
        assert AdopterOk(s, s.actors[s.owner[kind]]);
      }
    }
  }
}
