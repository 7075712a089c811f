/** The watcher over the real store: its cursor is read out of the chat's record in
    memory, a commit is the mutation of a store call, and kills and power losses are
    the store's own. Every run of it is a run of `SyncCrash`, so the cursor results
    hold of what the directory really holds. */
module SyncStore {
  import opened Basics
  import opened Disk
  import opened StoreModel
  import opened Targets
  import Machine = StoreMachine
  import Erasure = StoreErasure
  import Cursors = SyncCrash
  import Sync = SyncCursor

  datatype Watch = Watch(chat: int, target: WatchTarget)

  predicate HasCursor(k: Watch, data: StoreData) {
    k.chat in data && k.target.SinceState(data[k.chat]).Some?
  }

  /** `position` says where in the log a state string of the server stands. */
  function CursorIn(k: Watch, position: string -> nat, data: StoreData): nat
    requires HasCursor(k, data)
  {
    position(k.target.SinceState(data[k.chat]).value)
  }

  datatype World = World(
    store: Machine.State, log: seq<Sync.Change>, epoch: nat, phase: Cursors.Phase,
    start: nat, handled: seq<nat>, earlier: seq<nat>)

  datatype Action =
    | Append(change: Sync.Change)
    | Fetch(until: nat)
    | Handle
    | Settle
    | Commit(t: nat, state: string)   // the watcher's own cursor write, as thread t
    | Elsewhere(step: Machine.Action) // any other store step that leaves this cursor alone
    | Restart(step: Machine.Action)   // a kill or a power loss

  predicate IsRestart(a: Machine.Action) {
    a.Kill? || a.PowerLoss?
  }

  /** Every version memory ever had holds the cursor, and so does every file that a
      restart may find. */
  predicate Readable(k: Watch, s: Machine.State) {
    && s.history != [] && (forall v :: 0 <= v < |s.history| ==> HasCursor(k, s.history[v]))
    && s.disk.entries != []
    && (forall i :: 0 <= i < |s.disk.entries| ==> 0 <= Machine.VersionOf(s.disk.entries[i]) < |s.history|)
  }

  function CursorsOf(k: Watch, position: string -> nat, history: seq<StoreData>): seq<nat>
    requires forall v :: 0 <= v < |history| ==> HasCursor(k, history[v])
  {
    seq(|history|, v requires 0 <= v < |history| => CursorIn(k, position, history[v]))
  }

  function VersionsOf(entries: seq<Entry<nat>>): seq<nat>
    requires forall i :: 0 <= i < |entries| ==> 0 <= Machine.VersionOf(entries[i])
  {
    seq(|entries|, i requires 0 <= i < |entries| => Machine.VersionOf(entries[i]))
  }

  /** The world as the cursor machine sees it. */
  function View(k: Watch, position: string -> nat, w: World): Cursors.State
    requires Readable(k, w.store)
  {
    Cursors.State(w.log, CursorsOf(k, position, w.store.history), VersionsOf(w.store.disk.entries),
                  w.epoch, w.phase, w.start, w.handled, w.earlier)
  }

  predicate KeepsCursor(k: Watch, before: StoreData, after: StoreData) {
    HasCursor(k, before) && HasCursor(k, after)
    && k.target.SinceState(after[k.chat]) == k.target.SinceState(before[k.chat])
  }

  /** A store step of another call that leaves this cursor alone. */
  predicate LeavesIt(k: Watch, s: Machine.State, b: Machine.Action)
    requires s.history != [] && HasCursor(k, Machine.Memory(s)) && Machine.Enabled(s, b)
  {
    match b
    case Mutate(t) =>
      var op := s.threads[t].op;
      op.chat != k.chat || LeavesCursor(k.target, op, Machine.Memory(s)[k.chat])
    case DropChat(t) => s.threads[t].op.chat != k.chat
    case _ => true
  }

  predicate Enabled(k: Watch, position: string -> nat, w: World, a: Action) {
    && Readable(k, w.store) && Cursors.Sane(View(k, position, w))
    && match a
       case Append(_) => true
       case Fetch(until) => Cursors.Enabled(View(k, position, w), Cursors.Fetch(until))
       case Handle => Cursors.Enabled(View(k, position, w), Cursors.Handle)
       case Settle => Cursors.Enabled(View(k, position, w), Cursors.Settle)
       case Commit(t, state) =>
         && Cursors.Enabled(View(k, position, w), Cursors.Commit)
         && Machine.Enabled(w.store, Machine.Mutate(t))
         && w.store.threads[t].op == k.target.CursorWrite(k.chat, state)
         && position(state) == w.phase.until
       case Elsewhere(b) =>
         !IsRestart(b) && Machine.Enabled(w.store, b) && LeavesIt(k, w.store, b)
       case Restart(b) => IsRestart(b) && Machine.Enabled(w.store, b)
  }

  function Next(k: Watch, position: string -> nat, w: World, a: Action): World
    requires Enabled(k, position, w, a)
  {
    match a
    case Append(c) => w.(log := w.log + [c])
    case Fetch(until) => w.(phase := Cursors.Working(until, 0))
    case Handle =>
      w.(handled := w.handled + [Cursors.Batch(View(k, position, w))[w.phase.done]],
         phase := Cursors.Working(w.phase.until, w.phase.done + 1))
    case Settle => w.(phase := Cursors.Idle)
    case Commit(t, _) => w.(store := Machine.Next(w.store, Machine.Mutate(t)), phase := Cursors.Idle)
    case Elsewhere(b) => w.(store := Machine.Next(w.store, b))
    case Restart(b) =>
      var store := Machine.Next(w.store, b);
      w.(store := store, epoch := |w.store.history|, phase := Cursors.Idle,
         start := if HasCursor(k, Machine.Memory(store)) then CursorIn(k, position, Machine.Memory(store)) else 0,
         earlier := w.earlier + w.handled, handled := [])
  }

  // ---- Invariant ----

  /** A persist in progress took its snapshot in this process. */
  ghost predicate SnapshotsAreNew(w: World) {
    forall t :: t in w.store.threads && Erasure.Carried(w.store.threads[t].pc).Some? ==>
      w.epoch <= Erasure.Carried(w.store.threads[t].pc).value
  }

  ghost predicate Inv(k: Watch, w: World) {
    Machine.Inv(w.store) && Readable(k, w.store) && w.epoch < |w.store.history| && SnapshotsAreNew(w)
  }

  lemma CursorMeansActive(k: Watch, data: StoreData)
    requires HasCursor(k, data)
    ensures k.target.StillActive(data[k.chat])
  {
  }

  /** Reading a file back does not change the cursor in it. */
  lemma ReloadKeepsCursor(k: Watch, data: StoreData)
    requires HasCursor(k, data)
    ensures KeepsCursor(k, data, Reload(data))
  {
  }

  lemma CommitWritesCursor(k: Watch, s: Machine.State, t: nat, state: string)
    requires Machine.Enabled(s, Machine.Mutate(t)) && HasCursor(k, Machine.Memory(s))
    requires s.threads[t].op == k.target.CursorWrite(k.chat, state)
    ensures var s' := Machine.Next(s, Machine.Mutate(t));
            && s'.history == s.history + [Machine.Memory(s')] && s'.disk == s.disk
            && HasCursor(k, Machine.Memory(s'))
            && k.target.SinceState(Machine.Memory(s')[k.chat]) == Some(state)
            && s'.threads.Keys == s.threads.Keys
            && (forall u :: u in s'.threads && u != t ==> s'.threads[u] == s.threads[u])
            && Erasure.Carried(s'.threads[t].pc) == None
  {
    CursorMeansActive(k, Machine.Memory(s));
    CursorReadsBack(k.target, Machine.Memory(s), k.chat, state);
    var op := s.threads[t].op;
    assert Apply(op, Machine.Memory(s)).persists && !Apply(op, Machine.Memory(s)).dropsChat;
  }

  /** What a restart finds is a version, with its cursor. */
  lemma RestartReads(k: Watch, s: Machine.State, b: Machine.Action) returns (i: nat)
    requires Machine.Inv(s) && Readable(k, s) && IsRestart(b) && Machine.Enabled(s, b)
    ensures i < |s.disk.entries| && (b.Kill? ==> i == |s.disk.entries| - 1) && (b.PowerLoss? ==> i == b.i)
    ensures var s' := Machine.Next(s, b); var v := Machine.VersionOf(s.disk.entries[i]);
            && s'.history == s.history + [Machine.Memory(s')] && s'.threads == map[]
            && s'.disk.entries == (if b.Kill? then s.disk.entries else [s.disk.entries[i]])
            && KeepsCursor(k, s.history[v], Machine.Memory(s'))
  {
    i := if b.Kill? then |s.disk.entries| - 1 else b.i;
    var v := Machine.VersionOf(s.disk.entries[i]);
    assert Machine.EntryOk(s.disk.entries[i], |s.history|);
    assert AfterOutage(s.disk.entries[i]) == s.disk.entries[i];
    ReloadKeepsCursor(k, s.history[v]);
  }

  // ---- Every step is a step of the cursor machine ----

  lemma CursorsSnoc(k: Watch, position: string -> nat, history: seq<StoreData>, data: StoreData)
    requires (forall v :: 0 <= v < |history| ==> HasCursor(k, history[v])) && HasCursor(k, data)
    ensures CursorsOf(k, position, history + [data]) == CursorsOf(k, position, history) + [CursorIn(k, position, data)]
  {
  }

  lemma NoMachineStep(s: Cursors.State)
    ensures Cursors.Reaches(s, [], s)
  {
  }

  lemma OneMachineStep(s: Cursors.State, a: Cursors.Action, s': Cursors.State)
    requires Cursors.Enabled(s, a) && Cursors.Next(s, a) == s'
    ensures Cursors.Reaches(s, [a], s')
  {
    assert [a][0] == a && [a][1..] == [];
    assert Cursors.Reaches(s', [], s');
  }

  /** One step of the world is at most one step of the cursor machine. */
  ghost predicate Refines(k: Watch, position: string -> nat, w: World, a: Action)
    requires Enabled(k, position, w, a)
  {
    var w' := Next(k, position, w, a);
    Inv(k, w') && exists moves :: Cursors.Reaches(View(k, position, w), moves, View(k, position, w'))
  }

  lemma WatcherStepRefines(k: Watch, position: string -> nat, w: World, a: Action)
    requires Inv(k, w) && Enabled(k, position, w, a) && (a.Append? || a.Fetch? || a.Handle? || a.Settle?)
    ensures Refines(k, position, w, a)
  {
    var move := match a
      case Append(c) => Cursors.Append(c)
      case Fetch(until) => Cursors.Fetch(until)
      case Handle => Cursors.Handle
      case _ => Cursors.Settle;
    OneMachineStep(View(k, position, w), move, View(k, position, Next(k, position, w, a)));
  }

  lemma CommitRefines(k: Watch, position: string -> nat, w: World, t: nat, state: string)
    requires Inv(k, w) && Enabled(k, position, w, Commit(t, state))
    ensures Refines(k, position, w, Commit(t, state))
  {
    var w' := Next(k, position, w, Commit(t, state));
    CommitWritesCursor(k, w.store, t, state);
    Machine.StepKeeps(w.store, Machine.Mutate(t));
    CommitView(k, position, w, w');
  }

  lemma CommitView(k: Watch, position: string -> nat, w: World, w': World)
    requires Readable(k, w.store) && Cursors.Enabled(View(k, position, w), Cursors.Commit)
    requires w'.store.history != [] && w'.store.history == w.store.history + [Machine.Memory(w'.store)]
    requires w'.store.disk == w.store.disk && w' == w.(store := w'.store, phase := Cursors.Idle)
    requires HasCursor(k, Machine.Memory(w'.store)) && CursorIn(k, position, Machine.Memory(w'.store)) == w.phase.until
    ensures Readable(k, w'.store)
    ensures Cursors.Reaches(View(k, position, w), [Cursors.Commit], View(k, position, w'))
  {
    CursorsSnoc(k, position, w.store.history, Machine.Memory(w'.store));
    OneMachineStep(View(k, position, w), Cursors.Commit, View(k, position, w'));
  }

  lemma RestartRefines(k: Watch, position: string -> nat, w: World, b: Machine.Action)
    requires Inv(k, w) && Enabled(k, position, w, Restart(b))
    ensures Refines(k, position, w, Restart(b))
  {
    var w' := Next(k, position, w, Restart(b));
    var i := RestartReads(k, w.store, b);
    Machine.StepKeeps(w.store, b);
    RestartView(k, position, w, w', i, b.Kill?);
    assert Cursors.Reaches(View(k, position, w), [if b.Kill? then Cursors.Kill else Cursors.PowerLoss(i)],
        View(k, position, w'));
  }

  lemma RestartView(k: Watch, position: string -> nat, w: World, w': World, i: nat, kill: bool)
    requires Readable(k, w.store) && Cursors.Sane(View(k, position, w)) && i < |w.store.disk.entries|
    requires kill ==> i == |w.store.disk.entries| - 1
    requires w'.store.history != [] && w'.store.history == w.store.history + [Machine.Memory(w'.store)]
    requires w'.store.disk.entries == if kill then w.store.disk.entries else [w.store.disk.entries[i]]
    requires KeepsCursor(k, w.store.history[Machine.VersionOf(w.store.disk.entries[i])], Machine.Memory(w'.store))
    requires w' == w.(store := w'.store, epoch := |w.store.history|, phase := Cursors.Idle,
                      start := CursorIn(k, position, Machine.Memory(w'.store)),
                      earlier := w.earlier + w.handled, handled := [])
    ensures Readable(k, w'.store)
    ensures Cursors.Reaches(View(k, position, w), [if kill then Cursors.Kill else Cursors.PowerLoss(i)],
        View(k, position, w'))
  {
    var entries := w.store.disk.entries;
    CursorsSnoc(k, position, w.store.history, Machine.Memory(w'.store));
    assert VersionsOf(entries)[i] == Machine.VersionOf(entries[i]);
    assert VersionsOf(w'.store.disk.entries) == if kill then VersionsOf(entries) else [VersionsOf(entries)[i]];
    OneMachineStep(View(k, position, w), if kill then Cursors.Kill else Cursors.PowerLoss(i), View(k, position, w'));
  }

  /** What a store step that does not restart may do to versions, directory and snapshots. */
  datatype Effect = Nothing | NewVersion | Renamed(v: nat) | Synced

  function EffectOf(s: Machine.State, b: Machine.Action): Effect
    requires Machine.Enabled(s, b) && !IsRestart(b)
  {
    match b
    case Mutate(t) => if Apply(s.threads[t].op, Machine.Memory(s)).persists then NewVersion else Nothing
    case DropChat(_) => NewVersion
    case FileStep(t) =>
      (match s.threads[t].pc
       case Chmodded(v) => Renamed(v)
       case _ => Nothing)
    case Finish(_, dirSync) => if dirSync then Synced else Nothing
    case _ => Nothing
  }

  lemma StoreStepShape(s: Machine.State, b: Machine.Action)
    requires Machine.Inv(s) && Machine.Enabled(s, b) && !IsRestart(b)
    ensures var s' := Machine.Next(s, b);
            match EffectOf(s, b)
            case Nothing => s'.history == s.history && s'.disk.entries == s.disk.entries
            case NewVersion => |s'.history| == |s.history| + 1 && s.history <= s'.history && s'.disk == s.disk
            case Renamed(v) =>
              && s'.history == s.history && s'.disk.entries == s.disk.entries + [Some(File(Whole(v), true))]
              && Machine.VisibleVersion(s) <= v < |s.history|
            case Synced => s'.history == s.history && s'.disk.entries == [Last(s.disk.entries)]
  {
    if b.FileStep? {
      assert Machine.ThreadOk(s, s.threads[b.t]);
    }
  }

  lemma SnapshotsStayNew(w: World, b: Machine.Action, w': World)
    requires Machine.Inv(w.store) && SnapshotsAreNew(w) && w.epoch < |w.store.history|
    requires Machine.Enabled(w.store, b) && !IsRestart(b) && w' == w.(store := Machine.Next(w.store, b))
    ensures SnapshotsAreNew(w')
  {
    forall t | t in w'.store.threads && Erasure.Carried(w'.store.threads[t].pc).Some?
      ensures w.epoch <= Erasure.Carried(w'.store.threads[t].pc).value
    {
      if t in w.store.threads {
        assert Erasure.Carried(w.store.threads[t].pc).Some? ==> w.epoch <= Erasure.Carried(w.store.threads[t].pc).value;
      }
    }
  }

  lemma OthersKeepCursor(k: Watch, s: Machine.State, b: Machine.Action)
    requires Machine.Enabled(s, b) && !IsRestart(b) && HasCursor(k, Machine.Memory(s)) && LeavesIt(k, s, b)
    ensures Machine.Next(s, b).history != []
    ensures KeepsCursor(k, Machine.Memory(s), Machine.Memory(Machine.Next(s, b)))
  {
    if b.Mutate? && s.threads[b.t].op.chat == k.chat {
      LeavesCursorKeepsIt(k.target, s.threads[b.t].op, Machine.Memory(s));
    }
  }

  lemma ElsewhereRefines(k: Watch, position: string -> nat, w: World, b: Machine.Action)
    requires Inv(k, w) && Enabled(k, position, w, Elsewhere(b))
    ensures Refines(k, position, w, Elsewhere(b))
  {
    var w' := Next(k, position, w, Elsewhere(b));
    Machine.StepKeeps(w.store, b);
    SnapshotsStayNew(w, b, w');
    OthersKeepCursor(k, w.store, b);
    var moves := EffectInView(k, position, w, w', b);
  }

  lemma EffectInView(k: Watch, position: string -> nat, w: World, w': World, b: Machine.Action)
    returns (moves: seq<Cursors.Action>)
    requires Inv(k, w) && Enabled(k, position, w, Elsewhere(b)) && w' == Next(k, position, w, Elsewhere(b))
    requires w'.store.history != [] && KeepsCursor(k, Machine.Memory(w.store), Machine.Memory(w'.store))
    ensures Readable(k, w'.store) && Cursors.Reaches(View(k, position, w), moves, View(k, position, w'))
  {
    StoreStepShape(w.store, b);
    match EffectOf(w.store, b)
    case Nothing =>
      SameView(k, position, w, w');
      moves := [];
    case NewVersion =>
      assert w'.store.history == w.store.history + [Machine.Memory(w'.store)];
      NewVersionRefines(k, position, w, w');
      moves := [Cursors.OtherWrite];
    case Renamed(v) =>
      assert w.epoch <= v;
      RenamedView(k, position, w, w', v);
      moves := [Cursors.Rename(v)];
    case Synced =>
      SyncedView(k, position, w, w');
      moves := [Cursors.SyncDirectory];
  }

  lemma SameView(k: Watch, position: string -> nat, w: World, w': World)
    requires Readable(k, w.store) && w' == w.(store := w'.store)
    requires w'.store.history == w.store.history && w'.store.disk.entries == w.store.disk.entries
    ensures Readable(k, w'.store) && Cursors.Reaches(View(k, position, w), [], View(k, position, w'))
  {
    NoMachineStep(View(k, position, w));
  }

  lemma RenamedView(k: Watch, position: string -> nat, w: World, w': World, v: nat)
    requires Readable(k, w.store) && Cursors.Sane(View(k, position, w)) && w' == w.(store := w'.store)
    requires w'.store.history == w.store.history
    requires w'.store.disk.entries == w.store.disk.entries + [Some(File(Whole(v), true))]
    requires w.epoch <= v < |w.store.history| && Machine.VisibleVersion(w.store) <= v
    ensures Readable(k, w'.store) && Cursors.Reaches(View(k, position, w), [Cursors.Rename(v)], View(k, position, w'))
  {
    var entries, entries' := w.store.disk.entries, w'.store.disk.entries;
    assert VersionsOf(entries') == VersionsOf(entries) + [v];
    assert Last(VersionsOf(entries)) == Machine.VersionOf(Last(entries));
    OneMachineStep(View(k, position, w), Cursors.Rename(v), View(k, position, w'));
  }

  lemma SyncedView(k: Watch, position: string -> nat, w: World, w': World)
    requires Readable(k, w.store) && Cursors.Sane(View(k, position, w)) && w' == w.(store := w'.store)
    requires w'.store.history == w.store.history && w'.store.disk.entries == [Last(w.store.disk.entries)]
    ensures Readable(k, w'.store)
    ensures Cursors.Reaches(View(k, position, w), [Cursors.SyncDirectory], View(k, position, w'))
  {
    assert VersionsOf(w'.store.disk.entries) == [Last(VersionsOf(w.store.disk.entries))];
    OneMachineStep(View(k, position, w), Cursors.SyncDirectory, View(k, position, w'));
  }

  lemma NewVersionRefines(k: Watch, position: string -> nat, w: World, w': World)
    requires Readable(k, w.store) && Cursors.Sane(View(k, position, w))
    requires w'.store.history != [] && w'.store.history == w.store.history + [Machine.Memory(w'.store)]
    requires w'.store.disk == w.store.disk && w' == w.(store := w'.store)
    requires KeepsCursor(k, Machine.Memory(w.store), Machine.Memory(w'.store))
    ensures Readable(k, w'.store)
    ensures Cursors.Reaches(View(k, position, w), [Cursors.OtherWrite], View(k, position, w'))
  {
    CursorsSnoc(k, position, w.store.history, Machine.Memory(w'.store));
    OneMachineStep(View(k, position, w), Cursors.OtherWrite, View(k, position, w'));
  }

  lemma StepRefines(k: Watch, position: string -> nat, w: World, a: Action)
    requires Inv(k, w) && Enabled(k, position, w, a)
    ensures Refines(k, position, w, a)
  {
    match a
    case Commit(t, state) => CommitRefines(k, position, w, t, state);
    case Restart(b) => RestartRefines(k, position, w, b);
    case Elsewhere(b) => ElsewhereRefines(k, position, w, b);
    case _ => WatcherStepRefines(k, position, w, a);
  }

  // ---- Runs ----

  ghost predicate Reaches(k: Watch, position: string -> nat, w: World, actions: seq<Action>, w': World)
    decreases |actions|
  {
    if actions == [] then w == w' else
      Enabled(k, position, w, actions[0]) && Reaches(k, position, Next(k, position, w, actions[0]), actions[1..], w')
  }

  lemma {:induction false} MachineRunsConcat(
      s0: Cursors.State, first: seq<Cursors.Action>, s: Cursors.State, second: seq<Cursors.Action>, s': Cursors.State)
    requires Cursors.Reaches(s0, first, s) && Cursors.Reaches(s, second, s')
    ensures Cursors.Reaches(s0, first + second, s')
    decreases |first|
  {
    if first == [] {
      assert first + second == second;
    } else {
      assert (first + second)[1..] == first[1..] + second;
      MachineRunsConcat(Cursors.Next(s0, first[0]), first[1..], s, second, s');
    }
  }

  /** Every run over the real store is a run of the cursor machine. */
  lemma {:induction false} RunsRefine(k: Watch, position: string -> nat, w: World, actions: seq<Action>, w': World)
    returns (moves: seq<Cursors.Action>)
    requires Inv(k, w) && Reaches(k, position, w, actions, w')
    ensures Inv(k, w') && Cursors.Reaches(View(k, position, w), moves, View(k, position, w'))
    decreases |actions|
  {
    if actions == [] {
      moves := [];
    } else {
      var w1 := Next(k, position, w, actions[0]);
      StepRefines(k, position, w, actions[0]);
      var first :| Cursors.Reaches(View(k, position, w), first, View(k, position, w1));
      var second := RunsRefine(k, position, w1, actions[1..], w');
      MachineRunsConcat(View(k, position, w), first, View(k, position, w1), second, View(k, position, w'));
      moves := first + second;
    }
  }

  /** A store just opened on a complete file that holds the watch's cursor. */
  function Opened(k: Watch, position: string -> nat, data: StoreData, log: seq<Sync.Change>): World
    requires HasCursor(k, data)
  {
    World(Machine.State([data], map[], None, Disk(None, [Some(File(Whole(0), true))])),
          log, 0, Cursors.Idle, CursorIn(k, position, data), [], [])
  }

  lemma OpenedIsInitial(k: Watch, position: string -> nat, data: StoreData, log: seq<Sync.Change>)
    requires HasCursor(k, data) && CursorIn(k, position, data) <= |log|
    ensures Inv(k, Opened(k, position, data, log))
    ensures View(k, position, Opened(k, position, data, log)) == Cursors.Init(log, CursorIn(k, position, data))
  {
    Machine.InitEstablishes(Opened(k, position, data, log).store);
  }

  function Handled(w: World): seq<nat> {
    w.earlier + w.handled
  }

  /** The message at p was created and comes before the cursor in version v. */
  predicate Passed(k: Watch, position: string -> nat, w: World, v: nat, p: nat)
    requires Readable(k, w.store)
  {
    && v < |w.store.history| && p < CursorIn(k, position, w.store.history[v])
    && p < |w.log| && w.log[p].Created?
  }

  lemma PassedInView(k: Watch, position: string -> nat, w: World, base: nat, v: nat, p: nat)
    requires Readable(k, w.store) && Cursors.Inv(View(k, position, w), base)
    requires Passed(k, position, w, v, p) && base <= p
    ensures p in Handled(w)
  {
    var s := View(k, position, w);
    assert s.cursors[v] == CursorIn(k, position, w.store.history[v]);
    assert Cursors.Covered(s, base, s.cursors[v]);
    assert Cursors.Handled(s) == Handled(w);
  }

  lemma ViewKeepsInv(k: Watch, position: string -> nat, data: StoreData, log: seq<Sync.Change>, actions: seq<Action>,
                     w: World)
    requires HasCursor(k, data) && CursorIn(k, position, data) <= |log|
    requires Reaches(k, position, Opened(k, position, data, log), actions, w)
    ensures Inv(k, w) && Cursors.Inv(View(k, position, w), CursorIn(k, position, data))
  {
    var base := CursorIn(k, position, data);
    OpenedIsInitial(k, position, data, log);
    var moves := RunsRefine(k, position, Opened(k, position, data, log), actions, w);
    Cursors.InitEstablishes(log, base);
    Cursors.RunsKeep(Cursors.Init(log, base), base, moves, View(k, position, w));
  }

  /** In every run of the watcher, any other store calls, kills and power losses: each
      message created before the cursor in any version memory ever had, and so in any
      file a restart may find, was handled; and within an epoch each once, in order. */
  lemma NoRestartSkips(k: Watch, position: string -> nat, data: StoreData, log: seq<Sync.Change>,
                       actions: seq<Action>, w: World)
    requires HasCursor(k, data) && CursorIn(k, position, data) <= |log|
    requires Reaches(k, position, Opened(k, position, data, log), actions, w)
    ensures Readable(k, w.store) && Cursors.Increasing(w.handled)
    ensures forall v, p: nat :: CursorIn(k, position, data) <= p && Passed(k, position, w, v, p) ==> p in Handled(w)
  {
    var base := CursorIn(k, position, data);
    ViewKeepsInv(k, position, data, log, actions, w);
    Cursors.HandledInOrder(View(k, position, w), base);
    forall v, p: nat | base <= p && Passed(k, position, w, v, p)
      ensures p in Handled(w)
    {
      PassedInView(k, position, w, base, v, p);
    }
  }

  /** The cursor in the file that stable storage holds for sure. */
  function DurableCursor(k: Watch, position: string -> nat, w: World): nat
    requires Readable(k, w.store)
  {
    CursorIn(k, position, w.store.history[Machine.DurableVersion(w.store)])
  }

  /** From any moment of such a run on, through any kills and power losses, only
      messages at or past the cursor in stable storage are handled again. */
  lemma OnlyPastStableStorageRepeats(
      k: Watch, position: string -> nat, data: StoreData, log: seq<Sync.Change>,
      before: seq<Action>, w: World, after: seq<Action>, w': World)
    requires HasCursor(k, data) && CursorIn(k, position, data) <= |log|
    requires Reaches(k, position, Opened(k, position, data, log), before, w)
    requires Reaches(k, position, w, after, w')
    ensures Readable(k, w.store) && Cursors.OnlyFrom(Handled(w), Handled(w'), DurableCursor(k, position, w))
  {
    var base := CursorIn(k, position, data);
    ViewKeepsInv(k, position, data, log, before, w);
    var second := RunsRefine(k, position, w, after, w');
    Cursors.OnlyPastTheDurableRepeats(View(k, position, w), base, second, View(k, position, w'));
  }
}
