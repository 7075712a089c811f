/** Any number of threads inside the store's operations, interleaved at every
    lock acquisition and every file-system call, with process kills and power
    losses at any point. The disk holds version numbers: `history[v]` is the data
    as it was in memory after the v-th write, so a file that is `Whole(v)` is the
    complete snapshot of that memory state. */
module StoreMachine {
  import opened Basics
  import opened Disk
  import opened StoreModel

  datatype Pc =
    | Ready                 // before the data write lock
    | SecondLock            // remove_account between its two critical sections
    | Waiting               // before the persist lock
    | Locked                // holds the persist lock
    | Snapped(ver: nat)     // has read and sealed the data
    | Created(ver: nat)
    | Written(ver: nat)
    | Synced(ver: nat)
    | Chmodded(ver: nat)
    | Renamed(ver: nat)
    | Returned(ok: bool)

  /** `wrote` is the version this call's last mutation produced; `dirSynced` says
      that its directory fsync went through. */
  datatype Thread = Thread(op: Op, flag: bool, wrote: Option<nat>, dirSynced: bool, pc: Pc)

  datatype State = State(
    history: seq<StoreData>, threads: map<nat, Thread>, lock: Option<nat>, disk: Disk<nat>)

  function Memory(s: State): StoreData
    requires s.history != []
  {
    Last(s.history)
  }

  datatype Action =
    | Call(t: nat, op: Op)
    | Mutate(t: nat)
    | DropChat(t: nat)
    | Acquire(t: nat)
    | Snapshot(t: nat)
    | FileStep(t: nat)            // create, write, fsync, chmod or rename, whichever is next
    | Fail(t: nat)                // the next file step (or the sealing) reports an error
    | Finish(t: nat, dirSync: bool)
    | Leave(t: nat)
    | Kill                        // the process dies and restarts
    | PowerLoss(i: nat)           // the machine dies; the directory comes back as entry i

  function At(s: State, t: nat, pc: Pc): State
    requires t in s.threads
  {
    s.(threads := s.threads[t := s.threads[t].(pc := pc)])
  }

  predicate InSection(pc: Pc) {
    pc.Locked? || pc.Snapped? || pc.Created? || pc.Written? || pc.Synced? || pc.Chmodded? || pc.Renamed?
  }

  predicate Enabled(s: State, a: Action) {
    && s.history != [] && s.disk.entries != []
    && match a
       case Call(t, _) => t !in s.threads
       case Kill => Readable(s.disk)
       case PowerLoss(i) => i < |s.disk.entries| && Readable(Outage(s.disk, i))
       case _ => a.t in s.threads && EnabledAt(s, a, s.threads[a.t].pc)
  }

  predicate EnabledAt(s: State, a: Action, pc: Pc) {
    match a
    case Mutate(_) => pc == Ready
    case DropChat(_) => pc == SecondLock
    case Acquire(_) => pc == Waiting && s.lock == None
    case Snapshot(_) => pc == Locked
    case FileStep(_) => pc.Snapped? || pc.Created? || pc.Written? || pc.Synced? || pc.Chmodded?
    case Fail(_) => pc.Locked? || pc.Snapped? || pc.Created? || pc.Written? || pc.Synced? || pc.Chmodded?
    case Finish(_, _) => pc.Renamed?
    case Leave(_) => pc.Returned?
    case _ => false
  }

  /** A restart can open the state file (or finds none). */
  predicate Readable(d: Disk<nat>) {
    d.entries != [] && (Visible(d).Some? ==> Visible(d).value.content.Whole?)
  }

  /** The data a restart begins with: `Store::open`. */
  function Opened(s: State, d: Disk<nat>): StoreData {
    if Readable(d) && Visible(d).Some? && Visible(d).value.content.plain < |s.history| then
      Reload(s.history[Visible(d).value.content.plain])
    else map[]
  }

  function Restart(s: State, d: Disk<nat>): State {
    State(s.history + [Opened(s, d)], map[], None, d)
  }

  function Next(s: State, a: Action): State
    requires Enabled(s, a)
  {
    match a
    case Call(t, op) => s.(threads := s.threads[t := Thread(op, false, None, false, Ready)])
    case Kill => Restart(s, s.disk)
    case PowerLoss(i) => Restart(s, Outage(s.disk, i))
    case Mutate(t) =>
      var th := s.threads[t];
      var e := Apply(th.op, Memory(s));
      if !e.persists then s.(threads := s.threads[t := th.(flag := e.flag, pc := Returned(true))])
      else s.(history := s.history + [e.data],
              threads := s.threads[t := th.(flag := e.flag, wrote := Some(|s.history|),
                                            pc := if e.dropsChat then SecondLock else Waiting)])
    case DropChat(t) =>
      var th := s.threads[t];
      s.(history := s.history + [Memory(s) - {th.op.chat}],
         threads := s.threads[t := th.(wrote := Some(|s.history|), pc := Waiting)])
    case Acquire(t) => At(s, t, Locked).(lock := Some(t))
    case Snapshot(t) => At(s, t, Snapped(|s.history| - 1))
    case FileStep(t) => NextFileStep(s, t)
    case Fail(t) => At(s, t, Returned(false)).(lock := None)
    case Finish(t, dirSync) =>
      var th := s.threads[t];
      s.(threads := s.threads[t := th.(dirSynced := dirSync, pc := Returned(true))],
         lock := None, disk := if dirSync then SyncDirectory(s.disk) else s.disk)
    case Leave(t) => s.(threads := s.threads - {t})
  }

  function NextFileStep(s: State, t: nat): State
    requires Enabled(s, FileStep(t))
  {
    match s.threads[t].pc
    case Snapped(v) => At(s, t, Created(v)).(disk := Create(s.disk))
    case Created(v) => At(s, t, Written(v)).(disk := Write(s.disk, v))
    case Written(v) => At(s, t, Synced(v)).(disk := Sync(s.disk))
    case Synced(v) => At(s, t, Chmodded(v))
    case Chmodded(v) => At(s, t, Renamed(v)).(disk := Rename(s.disk))
  }

  // ---- The inductive invariant ----

  /** The version a directory entry holds; none is older than any version. */
  function VersionOf(e: Entry<nat>): int {
    if e.Some? && e.value.content.Whole? then e.value.content.plain else -1
  }

  function VisibleVersion(s: State): int
    requires s.disk.entries != []
  {
    VersionOf(Visible(s.disk))
  }

  function DurableVersion(s: State): int
    requires s.disk.entries != []
  {
    VersionOf(s.disk.entries[0])
  }

  ghost predicate EntryOk(e: Entry<nat>, versions: nat) {
    e == None || exists v: nat :: v < versions && e == Some(File(Whole(v), true))
  }

  ghost predicate DiskOk(s: State) {
    && s.history != [] && s.disk.entries != []
    && (forall i :: 0 <= i < |s.disk.entries| ==> EntryOk(s.disk.entries[i], |s.history|))
    && (forall i, j :: 0 <= i < j < |s.disk.entries| ==> VersionOf(s.disk.entries[i]) <= VersionOf(s.disk.entries[j]))
    && VersionOf(s.disk.tmp) < |s.history|
    && (s.disk.tmp.Some? && s.disk.tmp.value.content.Whole? ==> VersionOf(s.disk.tmp) >= VisibleVersion(s))
  }

  ghost predicate WroteBefore(th: Thread, v: int) {
    th.wrote.Some? && th.wrote.value <= v
  }

  ghost predicate ThreadOk(s: State, th: Thread)
    requires s.disk.entries != []
  {
    match th.pc
    case Ready => th.wrote == None
    case SecondLock => WroteBefore(th, |s.history| - 1)
    case Waiting => WroteBefore(th, |s.history| - 1)
    case Locked => WroteBefore(th, |s.history| - 1)
    case Snapped(v) => HolderOk(s, th, v)
    case Created(v) => HolderOk(s, th, v) && s.disk.tmp == Some(File(Torn, false))
    case Written(v) => HolderOk(s, th, v) && s.disk.tmp == Some(File(Whole(v), false))
    case Synced(v) => HolderOk(s, th, v) && s.disk.tmp == Some(File(Whole(v), true))
    case Chmodded(v) => HolderOk(s, th, v) && s.disk.tmp == Some(File(Whole(v), true))
    case Renamed(v) => HolderOk(s, th, v) && VisibleVersion(s) == v && s.disk.tmp == None
    case Returned(ok) =>
      ok && th.wrote.Some? ==>
        && th.wrote.value <= VisibleVersion(s)
        && (th.dirSynced ==> th.wrote.value <= DurableVersion(s))
  }

  ghost predicate HolderOk(s: State, th: Thread, v: nat)
    requires s.disk.entries != []
  {
    WroteBefore(th, v) && VisibleVersion(s) <= v < |s.history|
  }

  ghost predicate LockOk(s: State) {
    && (forall t :: t in s.threads && InSection(s.threads[t].pc) ==> s.lock == Some(t))
    && (s.lock.Some? ==> s.lock.value in s.threads && InSection(s.threads[s.lock.value].pc))
  }

  ghost predicate Inv(s: State) {
    && DiskOk(s)
    && LockOk(s)
    && (forall t :: t in s.threads ==> ThreadOk(s, s.threads[t]))
  }

  /** A store just opened on an empty directory or on a complete state file. */
  ghost predicate Init(s: State) {
    && s.threads == map[] && s.lock == None && |s.history| == 1
    && s.disk.tmp == None && |s.disk.entries| == 1
    && ((s.disk.entries[0] == None && s.history[0] == map[]) || s.disk.entries[0] == Some(File(Whole(0), true)))
  }

  lemma InitEstablishes(s: State)
    requires Init(s)
    ensures Inv(s)
  {
  }

  /** A write that appends a version keeps the disk facts. */
  lemma AppendKeeps(s: State, s': State)
    requires Inv(s)
    requires |s'.history| == |s.history| + 1 && s'.disk == s.disk
    ensures DiskOk(s')
    ensures forall th :: ThreadOk(s, th) ==> ThreadOk(s', th)
  {
    forall i | 0 <= i < |s'.disk.entries|
      ensures EntryOk(s'.disk.entries[i], |s'.history|)
    {
      assert EntryOk(s.disk.entries[i], |s.history|);
    }
  }

  lemma RenameKeeps(s: State, t: nat)
    requires Inv(s) && Enabled(s, FileStep(t)) && s.threads[t].pc.Chmodded?
    ensures DiskOk(Next(s, FileStep(t)))
    ensures VisibleVersion(Next(s, FileStep(t))) == s.threads[t].pc.ver >= VisibleVersion(s)
    ensures DurableVersion(Next(s, FileStep(t))) == DurableVersion(s)
  {
    var s' := Next(s, FileStep(t));
    var v := s.threads[t].pc.ver;
    assert ThreadOk(s, s.threads[t]);
    var n := |s.disk.entries|;
    assert s'.disk.entries[n] == Some(File(Whole(v), true));
    forall i | 0 <= i < n
      ensures EntryOk(s'.disk.entries[i], |s'.history|) && VersionOf(s'.disk.entries[i]) <= v
    {
      assert s'.disk.entries[i] == s.disk.entries[i];
      assert VersionOf(s.disk.entries[i]) <= VersionOf(s.disk.entries[n - 1]);
    }
  }

  /** Threads outside the section do not look at what the holder does. */
  lemma BystanderOk(s: State, s': State, u: nat)
    requires Inv(s) && u in s.threads && !InSection(s.threads[u].pc)
    requires s'.history == s.history && s'.disk.entries != []
    requires VisibleVersion(s) <= VisibleVersion(s') && DurableVersion(s) <= DurableVersion(s')
    ensures ThreadOk(s', s.threads[u])
  {
    assert ThreadOk(s, s.threads[u]);
  }

  lemma FileStepKeepsDisk(s: State, t: nat)
    requires Inv(s) && Enabled(s, FileStep(t))
    ensures var s' := Next(s, FileStep(t));
            && DiskOk(s') && DurableVersion(s') == DurableVersion(s) && VisibleVersion(s) <= VisibleVersion(s')
  {
    assert ThreadOk(s, s.threads[t]);
    if s.threads[t].pc.Chmodded? {
      RenameKeeps(s, t);
    }
  }

  lemma FileStepKeepsHolder(s: State, t: nat)
    requires Inv(s) && Enabled(s, FileStep(t))
    ensures Next(s, FileStep(t)).disk.entries != []
    ensures ThreadOk(Next(s, FileStep(t)), Next(s, FileStep(t)).threads[t])
  {
    assert ThreadOk(s, s.threads[t]);
    if s.threads[t].pc.Chmodded? {
      RenameKeeps(s, t);
    }
  }

  lemma FileStepKeeps(s: State, t: nat)
    requires Inv(s) && Enabled(s, FileStep(t))
    ensures Inv(Next(s, FileStep(t)))
  {
    var s' := Next(s, FileStep(t));
    FileStepKeepsDisk(s, t);
    FileStepKeepsHolder(s, t);
    assert s.lock == Some(t) && s'.history == s.history;
    assert s'.threads.Keys == s.threads.Keys && InSection(s'.threads[t].pc);
    assert forall u :: u in s.threads && u != t ==> s'.threads[u] == s.threads[u] && !InSection(s.threads[u].pc);
    forall u | u in s'.threads && u != t
      ensures ThreadOk(s', s'.threads[u])
    {
      BystanderOk(s, s', u);
    }
  }

  lemma FinishKeeps(s: State, t: nat, dirSync: bool)
    requires Inv(s) && Enabled(s, Finish(t, dirSync))
    ensures Inv(Next(s, Finish(t, dirSync)))
    ensures DurableVersion(s) <= DurableVersion(Next(s, Finish(t, dirSync)))
  {
    var s' := Next(s, Finish(t, dirSync));
    var n := |s.disk.entries|;
    assert EntryOk(s.disk.entries[n - 1], |s.history|);
    assert n > 1 ==> VersionOf(s.disk.entries[0]) <= VersionOf(s.disk.entries[n - 1]);
    forall u | u in s'.threads
      ensures ThreadOk(s', s'.threads[u])
    {
      assert ThreadOk(s, s.threads[u]);
      assert u != t ==> !InSection(s.threads[u].pc);
    }
  }

  /** Restarting on any directory entry the power loss may leave. */
  lemma RestartKeeps(s: State, a: Action)
    requires Inv(s) && Enabled(s, a) && (a.Kill? || a.PowerLoss?)
    ensures Inv(Next(s, a))
    ensures DurableVersion(s) <= DurableVersion(Next(s, a))
    ensures a.Kill? ==> VisibleVersion(Next(s, a)) == VisibleVersion(s)
  {
    var s' := Next(s, a);
    forall i | 0 <= i < |s.disk.entries|
      ensures EntryOk(s.disk.entries[i], |s'.history|) && AfterOutage(s.disk.entries[i]) == s.disk.entries[i]
    {
      assert EntryOk(s.disk.entries[i], |s.history|);
    }
    if a.PowerLoss? {
      var n := |s.disk.entries|;
      assert s'.disk.entries == [s.disk.entries[a.i]];
      assert VersionOf(s.disk.entries[a.i]) <= VersionOf(s.disk.entries[n - 1]);
    }
  }

  lemma LocalStepKeeps(s: State, a: Action)
    requires Inv(s) && Enabled(s, a)
    requires a.Acquire? || a.Snapshot? || a.Fail?
    ensures Inv(Next(s, a))
  {
    var s' := Next(s, a);
    forall u | u in s'.threads
      ensures ThreadOk(s', s'.threads[u])
    {
      assert ThreadOk(s, s.threads[u]);
    }
  }

  lemma CallOrLeaveKeeps(s: State, a: Action)
    requires Inv(s) && Enabled(s, a)
    requires a.Call? || a.Leave?
    ensures Inv(Next(s, a))
  {
    var s' := Next(s, a);
    forall u | u in s'.threads
      ensures ThreadOk(s', s'.threads[u])
    {
      if u in s.threads {
        assert ThreadOk(s, s.threads[u]);
      }
    }
  }

  /** A write by one thread, whatever data it writes. */
  lemma WriteKeeps(s: State, s': State, t: nat)
    requires Inv(s) && t in s.threads && !InSection(s.threads[t].pc)
    requires |s'.history| == |s.history| + 1 && s'.disk == s.disk && s'.lock == s.lock
    requires t in s'.threads && s'.threads == s.threads[t := s'.threads[t]]
    requires s'.threads[t].wrote == Some(|s.history|) && (s'.threads[t].pc == SecondLock || s'.threads[t].pc == Waiting)
    ensures Inv(s')
  {
    AppendKeeps(s, s');
    forall u | u in s'.threads
      ensures ThreadOk(s', s'.threads[u])
    {
      assert u != t ==> ThreadOk(s, s.threads[u]);
    }
  }

  lemma MutationKeeps(s: State, a: Action)
    requires Inv(s) && Enabled(s, a) && (a.Mutate? || a.DropChat?)
    ensures Inv(Next(s, a))
  {
    var s' := Next(s, a);
    if |s'.history| != |s.history| {
      WriteKeeps(s, s', a.t);
    } else {
      forall u | u in s'.threads
        ensures ThreadOk(s', s'.threads[u])
      {
        assert ThreadOk(s, s.threads[u]);
      }
    }
  }

  lemma StepKeeps(s: State, a: Action)
    requires Inv(s) && Enabled(s, a)
    ensures Inv(Next(s, a))
    ensures DurableVersion(s) <= DurableVersion(Next(s, a))
    ensures !a.PowerLoss? ==> VisibleVersion(s) <= VisibleVersion(Next(s, a))
    ensures s.history <= Next(s, a).history
  {
    match a
    case FileStep(t) =>
      FileStepKeeps(s, t);
      if s.threads[t].pc.Chmodded? { RenameKeeps(s, t); }
    case Finish(t, dirSync) => FinishKeeps(s, t, dirSync);
    case Kill => RestartKeeps(s, a);
    case PowerLoss(_) => RestartKeeps(s, a);
    case Mutate(_) => MutationKeeps(s, a);
    case DropChat(_) => MutationKeeps(s, a);
    case Call(_, _) => CallOrLeaveKeeps(s, a);
    case Leave(_) => CallOrLeaveKeeps(s, a);
    case _ => LocalStepKeeps(s, a);
  }

  // ---- Runs ----

  ghost predicate Reaches(s: State, actions: seq<Action>, s': State)
    decreases |actions|
  {
    if actions == [] then s == s' else
      Enabled(s, actions[0]) && Reaches(Next(s, actions[0]), actions[1..], s')
  }

  ghost predicate NoPowerLoss(actions: seq<Action>) {
    forall i :: 0 <= i < |actions| ==> !actions[i].PowerLoss?
  }

  /** Versions on disk never go backwards: the durable one in any run, the visible
      one in any run without a power loss. Memory states are never forgotten. */
  lemma {:induction false} RunsKeep(s: State, actions: seq<Action>, s': State)
    requires Inv(s) && Reaches(s, actions, s')
    ensures Inv(s')
    ensures DurableVersion(s) <= DurableVersion(s')
    ensures NoPowerLoss(actions) ==> VisibleVersion(s) <= VisibleVersion(s')
    ensures s.history <= s'.history
    decreases |actions|
  {
    if actions != [] {
      StepKeeps(s, actions[0]);
      RunsKeep(Next(s, actions[0]), actions[1..], s');
      assert NoPowerLoss(actions) ==> NoPowerLoss(actions[1..]) && !actions[0].PowerLoss?;
    }
  }

  /** At every moment of every run, whatever is or may come back as the state file
      is one complete snapshot of a memory state that occurred, so every restart
      opens; with no file at all the disk has never been written. */
  lemma DiskIsACompleteSnapshot(s0: State, actions: seq<Action>, s: State, i: nat)
    requires Init(s0) && Reaches(s0, actions, s) && i < |s.disk.entries|
    ensures s.disk.entries[i] == None ||
            exists v: nat :: v < |s.history| && s.disk.entries[i] == Some(File(Whole(v), true))
    ensures Readable(s.disk) && Readable(Outage(s.disk, i))
    ensures Opened(s, Outage(s.disk, i)) ==
            if s.disk.entries[i] == None then map[] else Reload(s.history[VersionOf(s.disk.entries[i])])
  {
    InitEstablishes(s0);
    RunsKeep(s0, actions, s);
    assert EntryOk(s.disk.entries[i], |s.history|);
    assert EntryOk(Last(s.disk.entries), |s.history|);
  }

  /** A call that wrote version m and returns Ok: the file a reader sees holds
      version m or a later one; once its directory fsync went through, so does
      whatever a power loss can bring back. */
  lemma OkMeansOnDisk(s0: State, actions: seq<Action>, s: State, t: nat)
    requires Init(s0) && Reaches(s0, actions, s)
    requires t in s.threads && s.threads[t].pc == Returned(true) && s.threads[t].wrote.Some?
    ensures s.disk.entries != [] && s.threads[t].wrote.value <= VisibleVersion(s) < |s.history|
    ensures s.threads[t].dirSynced ==>
              forall i :: 0 <= i < |s.disk.entries| ==> s.threads[t].wrote.value <= VersionOf(s.disk.entries[i])
  {
    InitEstablishes(s0);
    RunsKeep(s0, actions, s);
    assert ThreadOk(s, s.threads[t]);
    assert EntryOk(Last(s.disk.entries), |s.history|);
  }

  /** The two threads never hold the persist lock together. */
  lemma PersistIsExclusive(s0: State, actions: seq<Action>, s: State, t: nat, u: nat)
    requires Init(s0) && Reaches(s0, actions, s)
    requires t in s.threads && u in s.threads && InSection(s.threads[t].pc) && InSection(s.threads[u].pc)
    ensures t == u
  {
    InitEstablishes(s0);
    RunsKeep(s0, actions, s);
  }

  // ---- Erasure ----

  /** From version v on the chat is gone from memory, and `floor` (the visible or
      the durable version) is v or later. */
  ghost predicate Erased(s: State, chat: int, v: nat, floor: int) {
    && v < |s.history| && v <= floor
    && (forall w :: v <= w < |s.history| ==> chat !in s.history[w])
  }

  predicate Adds(s: State, a: Action, chat: int) {
    a.Mutate? && a.t in s.threads && Recreates(s.threads[a.t].op, chat)
  }

  ghost predicate NeverAdds(s: State, actions: seq<Action>, chat: int)
    decreases |actions|
  {
    actions == [] ||
    (!Adds(s, actions[0], chat) && (Enabled(s, actions[0]) ==> NeverAdds(Next(s, actions[0]), actions[1..], chat)))
  }

  lemma ErasedStep(s: State, a: Action, chat: int, v: nat)
    requires Inv(s) && Enabled(s, a) && !Adds(s, a, chat)
    requires Erased(s, chat, v, VisibleVersion(s))
    requires a.PowerLoss? ==> v <= DurableVersion(s)
    ensures Erased(Next(s, a), chat, v, VisibleVersion(Next(s, a)))
  {
    StepKeeps(s, a);
    var s' := Next(s, a);
    if a.Mutate? {
      OnlyAddingRecreates(s.threads[a.t].op, Memory(s), chat);
    } else if a.Kill? || a.PowerLoss? {
      var d := if a.Kill? then s.disk else Outage(s.disk, a.i);
      var k := if a.Kill? then |s.disk.entries| - 1 else a.i;
      assert EntryOk(s.disk.entries[k], |s.history|);
      assert VersionOf(s.disk.entries[0]) <= VersionOf(s.disk.entries[k]);
      assert d.entries != [] && Visible(d) == s.disk.entries[k];
      assert Opened(s, d) == Reload(s.history[VersionOf(s.disk.entries[k])]);
    }
  }

  lemma {:induction false} ErasedRun(s: State, actions: seq<Action>, s': State, chat: int, v: nat)
    requires Inv(s) && Reaches(s, actions, s') && NeverAdds(s, actions, chat)
    requires Erased(s, chat, v, VisibleVersion(s))
    requires NoPowerLoss(actions) || v <= DurableVersion(s)
    ensures Inv(s') && Erased(s', chat, v, VisibleVersion(s'))
    decreases |actions|
  {
    if actions != [] {
      ErasedStep(s, actions[0], chat, v);
      StepKeeps(s, actions[0]);
      assert NoPowerLoss(actions) ==> NoPowerLoss(actions[1..]) && !actions[0].PowerLoss?;
      ErasedRun(Next(s, actions[0]), actions[1..], s', chat, v);
    }
  }

  lemma ErasedMeansClean(s: State, chat: int, v: nat)
    requires Inv(s) && Erased(s, chat, v, VisibleVersion(s))
    ensures chat !in Memory(s)
    ensures 0 <= VisibleVersion(s) < |s.history| && chat !in s.history[VisibleVersion(s)]
    ensures s.disk.tmp.Some? && s.disk.tmp.value.content.Whole? ==>
              0 <= VersionOf(s.disk.tmp) < |s.history| && chat !in s.history[VersionOf(s.disk.tmp)]
    ensures v <= DurableVersion(s) ==>
              forall i :: 0 <= i < |s.disk.entries| ==>
                0 <= VersionOf(s.disk.entries[i]) < |s.history| && chat !in s.history[VersionOf(s.disk.entries[i])]
  {
    assert EntryOk(Last(s.disk.entries), |s.history|);
    forall i | 0 <= i < |s.disk.entries|
      ensures VersionOf(s.disk.entries[i]) < |s.history|
      ensures DurableVersion(s) <= VersionOf(s.disk.entries[i])
    {
      assert EntryOk(s.disk.entries[i], |s.history|);
    }
  }

  /** While the call that wrote version v is still running, no crash has happened
      since v, so the chat it removed is absent from every later memory state. */
  ghost predicate AbsentSince(s: State, chat: int, v: nat) {
    && v < |s.history|
    && ((forall w :: v <= w < |s.history| ==> chat !in s.history[w]) ||
        (forall t :: t in s.threads ==> s.threads[t].wrote != Some(v)))
  }

  lemma AbsentStep(s: State, a: Action, chat: int, v: nat)
    requires Inv(s) && Enabled(s, a) && !Adds(s, a, chat) && AbsentSince(s, chat, v)
    ensures AbsentSince(Next(s, a), chat, v)
  {
    if a.Mutate? && chat !in Memory(s) {
      OnlyAddingRecreates(s.threads[a.t].op, Memory(s), chat);
    }
  }

  lemma {:induction false} AbsentRun(s: State, actions: seq<Action>, s': State, chat: int, v: nat)
    requires Inv(s) && Reaches(s, actions, s') && NeverAdds(s, actions, chat) && AbsentSince(s, chat, v)
    ensures AbsentSince(s', chat, v)
    decreases |actions|
  {
    if actions != [] {
      StepKeeps(s, actions[0]);
      AbsentStep(s, actions[0], chat, v);
      AbsentRun(Next(s, actions[0]), actions[1..], s', chat, v);
    }
  }

  /** The removal at state s, which wrote version |s.history|, returns Ok(true) at s1. */
  ghost predicate RemovedOk(s: State, t: nat, chat: int, during: seq<Action>, s1: State) {
    && Enabled(s, Mutate(t)) && s.threads[t].op == Remove(chat) && chat in Memory(s)
    && Reaches(Next(s, Mutate(t)), during, s1) && NeverAdds(Next(s, Mutate(t)), during, chat)
    && t in s1.threads && s1.threads[t].wrote == Some(|s.history|) && s1.threads[t].pc == Returned(true)
  }

  lemma RemovalBegins(s0: State, before: seq<Action>, s: State, t: nat, chat: int)
    requires Init(s0) && Reaches(s0, before, s)
    requires Enabled(s, Mutate(t)) && s.threads[t].op == Remove(chat) && chat in Memory(s)
    ensures Inv(Next(s, Mutate(t))) && AbsentSince(Next(s, Mutate(t)), chat, |s.history|)
  {
    InitEstablishes(s0);
    RunsKeep(s0, before, s);
    StepKeeps(s, Mutate(t));
  }

  /** At that return the chat is gone from every later memory state, and the visible
      file, after a directory fsync stable storage too, is of such a state. */
  lemma ErasedAtReturn(s0: State, before: seq<Action>, s: State, t: nat, chat: int, during: seq<Action>, s1: State)
    requires Init(s0) && Reaches(s0, before, s) && RemovedOk(s, t, chat, during, s1)
    ensures Inv(s1) && Erased(s1, chat, |s.history|, VisibleVersion(s1))
    ensures s1.threads[t].dirSynced ==> |s.history| <= DurableVersion(s1)
  {
    RemovalBegins(s0, before, s, t, chat);
    AbsentRun(Next(s, Mutate(t)), during, s1, chat, |s.history|);
    RunsKeep(Next(s, Mutate(t)), during, s1);
    assert ThreadOk(s1, s1.threads[t]);
  }

  /** `remove` takes the chat out of memory at state s and later, at state s1,
      returns Ok(true); no call adds the chat meanwhile or afterwards. Then no step
      of any other call and no crash ever brings it back: not in memory, not in the
      state file, not in a leftover temporary file. Power losses are covered when
      the directory fsync of the removal went through, and then stable storage is
      clean as well. `StoreErasure` says exactly when they are covered otherwise. */
  lemma RemovalIsFinal(s0: State, before: seq<Action>, s: State, t: nat, chat: int,
                       during: seq<Action>, s1: State, after: seq<Action>, s2: State)
    requires Init(s0) && Reaches(s0, before, s) && RemovedOk(s, t, chat, during, s1)
    requires Reaches(s1, after, s2) && NeverAdds(s1, after, chat)
    requires NoPowerLoss(after) || s1.threads[t].dirSynced
    ensures s2.history != [] && chat !in Memory(s2)
    ensures s2.disk.entries != []
    ensures 0 <= VisibleVersion(s2) < |s2.history| && chat !in s2.history[VisibleVersion(s2)]
    ensures s2.disk.tmp.Some? && s2.disk.tmp.value.content.Whole? ==>
              0 <= VersionOf(s2.disk.tmp) < |s2.history| && chat !in s2.history[VersionOf(s2.disk.tmp)]
    ensures s1.threads[t].dirSynced ==>
              forall i :: 0 <= i < |s2.disk.entries| ==>
                && 0 <= VersionOf(s2.disk.entries[i]) < |s2.history|
                && chat !in s2.history[VersionOf(s2.disk.entries[i])]
  {
    ErasedAtReturn(s0, before, s, t, chat, during, s1);
    ErasedRun(s1, after, s2, chat, |s.history|);
    RunsKeep(s1, after, s2);
    ErasedMeansClean(s2, chat, |s.history|);
  }
}
