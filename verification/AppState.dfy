/** The caches of live clients and watchers, their teardown and their adoption, as the
    code changes them in place; one call at a time (`Lifecycle` interleaves them). */
module AppState {
  import opened Basics
  import opened StoreModel
  import opened Targets
  import Health
  import Undo

  type CacheKey = (int, string)

  function WithoutChat<V>(m: map<CacheKey, V>, chat: int): map<CacheKey, V> {
    map k | k in m && k.0 != chat :: m[k]
  }

  /** A sweep of the chat's entries that has yet to visit some keys. */
  function Unvisited<V>(m: map<CacheKey, V>, chat: int, visiting: set<CacheKey>): map<CacheKey, V> {
    map k | k in m && (k in visiting || k.0 != chat) :: m[k]
  }

  lemma VisitOne<V>(m: map<CacheKey, V>, chat: int, visiting: set<CacheKey>, k: CacheKey)
    requires k in visiting && visiting <= m.Keys
    ensures Unvisited(m, chat, visiting - {k}) ==
              if k.0 == chat then Unvisited(m, chat, visiting) - {k} else Unvisited(m, chat, visiting)
    ensures k in Unvisited(m, chat, visiting) && Unvisited(m, chat, {}) == WithoutChat(m, chat)
  {
  }

  /** A client map and a watcher map over the same keys: the pair for account slots or
      the pair for shared accounts. Clients and tasks are numbers. */
  class Watchers {
    var clients: map<CacheKey, nat>
    var handles: map<CacheKey, nat>
    var aborted: set<nat>
    ghost var spawned: set<nat>

    predicate HasHandle(t: nat)
      reads this
    {
      exists k :: k in handles && handles[k] == t
    }

    /** No task is lost: each one ever spawned has its handle stored or was aborted,
        not both, and no two keys share one. */
    ghost predicate Valid()
      reads this
    {
      && (forall t :: t in spawned <==> t in aborted || HasHandle(t))
      && (forall k :: k in handles ==> handles[k] !in aborted)
      && (forall k, l :: k in handles && l in handles && handles[k] == handles[l] ==> k == l)
    }

    constructor ()
      ensures Valid() && clients == map[] && handles == map[] && spawned == {}
    {
      clients, handles, aborted, spawned := map[], map[], {}, {};
    }

    /** Takes one handle out and aborts its task. */
    method Abort(key: CacheKey)
      requires Valid() && key in handles
      modifies `handles, `aborted
      ensures Valid() && handles == old(handles) - {key} && aborted == old(aborted) + {old(handles)[key]}
    {
      var task := handles[key];
      aborted := aborted + {task};
      handles := handles - {key};
      forall t
        ensures HasHandle(t) <==> old(HasHandle(t)) && t != task
      {
        if old(HasHandle(t)) && t != task {
          var k :| k in old(handles) && old(handles)[k] == t;
          assert k in handles && handles[k] == t;
        }
      }
    }

    /** Exactly the chat's handles are dropped, exactly their tasks are aborted. */
    method ForgetAllForChat(chat: int)
      requires Valid()
      modifies this
      ensures Valid() && spawned == old(spawned)
      ensures clients == WithoutChat(old(clients), chat) && handles == WithoutChat(old(handles), chat)
      ensures forall k :: k in handles <==> k in old(handles) && k.0 != chat
      ensures forall k :: k in clients <==> k in old(clients) && k.0 != chat
      ensures forall k :: k in handles ==> handles[k] == old(handles)[k]
      ensures forall k :: k in clients ==> clients[k] == old(clients)[k]
      ensures forall t :: t in aborted <==>
                t in old(aborted) || exists k :: k in old(handles) && k.0 == chat && old(handles)[k] == t
    {
      clients := WithoutChat(clients, chat);
      var visiting := handles.Keys;
      while visiting != {}
        invariant visiting <= old(handles).Keys
        invariant clients == WithoutChat(old(clients), chat)
        invariant handles == Unvisited(old(handles), chat, visiting)
        invariant Valid() && spawned == old(spawned)
      {
        var k :| k in visiting;
        VisitOne(old(handles), chat, visiting, k);
        visiting := visiting - {k};
        if k.0 == chat {
          Abort(k);
        }
      }
    }

    method Forget(key: CacheKey)
      requires Valid()
      modifies this
      ensures Valid() && spawned == old(spawned)
      ensures clients == old(clients) - {key} && handles == old(handles) - {key}
    {
      clients := clients - {key};
      if key in handles {
        Abort(key);
      }
    }

    /** `task` is the task that spawning would give. */
    method Adopt(key: CacheKey, client: nat, task: nat) returns (adopted: bool)
      requires Valid() && task !in spawned
      modifies this
      ensures Valid() && spawned == old(spawned) + if adopted then {task} else {}
      ensures adopted <==> key !in old(handles)
      ensures handles == if adopted then old(handles)[key := task] else old(handles)
      ensures clients == if adopted then old(clients)[key := client] else old(clients)
    {
      if key in handles {
        return false;
      }
      clients := clients[key := client];
      handles := handles[key := task];
      spawned := spawned + {task};
      forall t
        ensures HasHandle(t) <==> old(HasHandle(t)) || t == task
      {
        if t == task {
          assert key in handles && handles[key] == t;
        } else if old(HasHandle(t)) {
          var k :| k in old(handles) && old(handles)[k] == t;
          assert k in handles && handles[k] == t;
        }
      }
      return true;
    }
  }

  /** The shares authorised under a slot. */
  function ChildrenOf(a: Account, slotId: string): set<string> {
    set id | id in a.shared && a.shared[id].IsChildOf(slotId)
  }

  function KeysOf(chat: int, ids: set<string>): set<CacheKey> {
    set id | id in ids :: (chat, id)
  }

  function SharedEntries(chat: int, ids: set<string>): set<string> {
    set id | id in ids :: WatchTarget.Shared(id, "").HealthKey(chat)
  }

  /** In words: the keys and entries of just these shares of the chat. */
  lemma KeysAreOf(chat: int, ids: set<string>, k: CacheKey)
    ensures k in KeysOf(chat, ids) <==> k.0 == chat && k.1 in ids
    ensures k.0 == chat && k.1 in ids ==> WatchTarget.Shared(k.1, "").HealthKey(chat) in SharedEntries(chat, ids)
    ensures forall h :: h in SharedEntries(chat, ids) ==>
              exists id :: id in ids && h == WatchTarget.Shared(id, "").HealthKey(chat)
  {
  }

  lemma MinusOneMore<K, V>(m: map<K, V>, gone: set<K>, k: K)
    ensures m - gone - {k} == m - (gone + {k})
  {
  }

  lemma OneMoreShare(chat: int, ids: set<string>, id: string)
    ensures SharedEntries(chat, ids + {id}) == SharedEntries(chat, ids) + {WatchTarget.Shared(id, "").HealthKey(chat)}
    ensures KeysOf(chat, ids + {id}) == KeysOf(chat, ids) + {(chat, id)}
  {
  }

  class AppState {
    const health: Health.Health
    const slots: Watchers
    const shares: Watchers
    var pendingUndo: map<int, Undo.Pending>
    var pendingUndos: nat              // the gauge

    ghost predicate Valid()
      reads this, slots, shares
    {
      slots != shares && slots.Valid() && shares.Valid() && pendingUndos == |pendingUndo|
    }

    constructor ()
      ensures Valid() && fresh(health) && fresh(slots) && fresh(shares)
      ensures slots.handles == map[] && shares.handles == map[] && health.watchers == map[] && pendingUndo == map[]
    {
      health := new Health.Health();
      slots := new Watchers();
      shares := new Watchers();
      pendingUndo, pendingUndos := map[], 0;
    }

    /** Everything of the chat goes and nothing of any other chat does. */
    method Forget(chat: int)
      requires Valid()
      modifies this, health, slots, shares
      ensures Valid() && pendingUndo == old(pendingUndo) - {chat}
      ensures health.watchers == Health.WithoutChat(old(health.watchers), chat)
      ensures slots.clients == WithoutChat(old(slots.clients), chat)
      ensures slots.handles == WithoutChat(old(slots.handles), chat)
      ensures shares.clients == WithoutChat(old(shares.clients), chat)
      ensures shares.handles == WithoutChat(old(shares.handles), chat)
      ensures slots.spawned == old(slots.spawned) && shares.spawned == old(shares.spawned)
    {
      pendingUndo := pendingUndo - {chat};
      pendingUndos := |pendingUndo|;
      health.DeregisterChat(chat);
      slots.ForgetAllForChat(chat);
      shares.ForgetAllForChat(chat);
    }

    method ForgetShared(chat: int, accountId: string)
      requires Valid()
      modifies health, shares
      ensures Valid() && shares.spawned == old(shares.spawned)
      ensures health.watchers == old(health.watchers) - {WatchTarget.Shared(accountId, "").HealthKey(chat)}
      ensures shares.clients == old(shares.clients) - {(chat, accountId)}
      ensures shares.handles == old(shares.handles) - {(chat, accountId)}
    {
      health.Deregister(WatchTarget.Shared(accountId, "").HealthKey(chat));
      shares.Forget((chat, accountId));
    }

    /** The shares of `todo`, one after another. */
    method ForgetShares(chat: int, todo: set<string>)
      requires Valid()
      modifies health, shares
      ensures Valid() && shares.spawned == old(shares.spawned)
      ensures health.watchers == old(health.watchers) - SharedEntries(chat, todo)
      ensures shares.clients == old(shares.clients) - KeysOf(chat, todo)
      ensures shares.handles == old(shares.handles) - KeysOf(chat, todo)
    {
      var done: set<string> := {};
      while done != todo
        invariant Valid() && done <= todo && shares.spawned == old(shares.spawned)
        invariant health.watchers == old(health.watchers) - SharedEntries(chat, done)
        invariant shares.clients == old(shares.clients) - KeysOf(chat, done)
        invariant shares.handles == old(shares.handles) - KeysOf(chat, done)
        decreases |todo - done|
      {
        var id :| id in todo && id !in done;
        ForgetShared(chat, id);
        OneMoreShare(chat, done, id);
        MinusOneMore(old(health.watchers), SharedEntries(chat, done), WatchTarget.Shared(id, "").HealthKey(chat));
        MinusOneMore(old(shares.clients), KeysOf(chat, done), (chat, id));
        MinusOneMore(old(shares.handles), KeysOf(chat, done), (chat, id));
        done := done + {id};
      }
    }

    /** `account` is what the store holds for the chat after the slot's own teardown. */
    method ForgetAccount(chat: int, slotId: string, account: Option<Account>)
      requires Valid()
      modifies health, slots, shares
      ensures Valid() && slots.spawned == old(slots.spawned) && shares.spawned == old(shares.spawned)
      ensures slots.clients == old(slots.clients) - {(chat, slotId)}
      ensures slots.handles == old(slots.handles) - {(chat, slotId)}
      ensures var children := if account.Some? then ChildrenOf(account.value, slotId) else {};
              && shares.clients == old(shares.clients) - KeysOf(chat, children)
              && shares.handles == old(shares.handles) - KeysOf(chat, children)
              && health.watchers == old(health.watchers) - {SlotHealthKey(chat, slotId)} - SharedEntries(chat, children)
    {
      health.Deregister(SlotHealthKey(chat, slotId));
      slots.Forget((chat, slotId));
      if account.Some? {
        ForgetShares(chat, ChildrenOf(account.value, slotId));
      }
    }

    /** Adopting a target: refused exactly when its key has a handle, and then nothing
        changes, neither the cached client nor the registry entry. */
    method Adopt(chat: int, target: WatchTarget, client: nat, task: nat) returns (adopted: bool)
      requires Valid() && !target.Primary?
      requires task !in (if target.Shared? then shares.spawned else slots.spawned)
      modifies health, if target.Shared? then shares else slots
      ensures Valid()
      ensures var w := if target.Shared? then shares else slots;
              var key := (chat, if target.Shared? then target.accountId else target.slotId);
              && (adopted <==> key !in old(w.handles))
              && w.spawned == old(w.spawned) + (if adopted then {task} else {})
              && w.handles == (if adopted then old(w.handles)[key := task] else old(w.handles))
              && w.clients == (if adopted then old(w.clients)[key := client] else old(w.clients))
              && health.watchers ==
                 (if adopted then old(health.watchers)[target.HealthKey(chat) := Health.WatcherStatus(false, None)]
                  else old(health.watchers))
    {
      if target.Shared? {
        adopted := shares.Adopt((chat, target.accountId), client, task);
      } else {
        adopted := slots.Adopt((chat, target.slotId), client, task);
      }
      if adopted {
        health.Register(target.HealthKey(chat));
      }
    }

    /** Boot: every target shows up as disconnected before any connect is tried. */
    method RegisterPersisted(chat: int, targets: seq<ResumeTarget>)
      modifies health
      ensures forall h :: h in health.watchers <==> h in old(health.watchers) || IsKeyOf(targets, chat, |targets|, h)
      ensures forall h :: IsKeyOf(targets, chat, |targets|, h) ==>
                health.watchers[h] == Health.WatcherStatus(false, None)
      ensures forall h :: h in old(health.watchers) && !IsKeyOf(targets, chat, |targets|, h) ==>
                health.watchers[h] == old(health.watchers)[h]
    {
      for n := 0 to |targets|
        invariant forall h :: h in health.watchers <==> h in old(health.watchers) || IsKeyOf(targets, chat, n, h)
        invariant forall h :: IsKeyOf(targets, chat, n, h) ==>
                    health.watchers[h] == Health.WatcherStatus(false, None)
        invariant forall h :: h in old(health.watchers) && !IsKeyOf(targets, chat, n, h) ==>
                    health.watchers[h] == old(health.watchers)[h]
      {
        OneMoreKey(targets, chat, n);
        health.Register(targets[n].target.HealthKey(chat));
      }
    }
  }

  /** One of the first `n` targets has this registry key. */
  ghost predicate IsKeyOf(targets: seq<ResumeTarget>, chat: int, n: nat, h: string) {
    exists i :: 0 <= i < n && i < |targets| && targets[i].target.HealthKey(chat) == h
  }

  lemma OneMoreKey(targets: seq<ResumeTarget>, chat: int, n: nat)
    requires n < |targets|
    ensures forall h :: IsKeyOf(targets, chat, n + 1, h) <==>
                        IsKeyOf(targets, chat, n, h) || h == targets[n].target.HealthKey(chat)
  {
    forall h
      ensures IsKeyOf(targets, chat, n + 1, h) <==>
              IsKeyOf(targets, chat, n, h) || h == targets[n].target.HealthKey(chat)
    {
      if i :| 0 <= i < n && i < |targets| && targets[i].target.HealthKey(chat) == h {
        assert 0 <= i < n + 1;
      }
    }
  }

  // ---- Teardown and store agree ----

  /** `disconnect_account` tears down with `forget_account` and then removes the slot
      from the store: in good data the shares torn down are exactly the shares the
      store gives up, also when the slot was the chat's last. */
  lemma TeardownMatchesRemoval(data: StoreData, chat: int, slotId: string)
    requires Good(data) && chat in data && slotId in data[chat].accounts
    ensures var after := Complete(RemoveAccount(chat, slotId), data);
            ChildrenOf(data[chat],
                slotId) == data[chat].shared.Keys - (if chat in after then after[chat].shared.Keys else {})
  {
    RemoveAccountIsExact(data, chat, slotId);
    var a := data[chat];
    if a.accounts.Keys == {slotId} {
      assert ChildrenOf(a, slotId) == a.shared.Keys;
    } else {
      var after := Complete(RemoveAccount(chat, slotId), data)[chat];
      assert after.shared == WithoutChildren(a.shared, slotId);
    }
  }
}
