/** What a watcher follows, how it is named in the health registry, and which
    targets a restart brings back. */
module Targets {
  import opened Basics
  import opened StoreModel

  datatype Place = InSlot(slotId: string) | InShare(accountId: string) | Nowhere

  datatype WatchTarget =
    | Primary
    | Shared(accountId: string, caption: string)
    | Extra(slotId: string, caption: string)
    | Slot(slotId: string, caption: string)
  {
    function SinceState(a: Account): Option<string> {
      match this
      case Primary => if a.PrimarySlot().Some? then a.PrimarySlot().value.lastState else None
      case Shared(id, _) => if id in a.shared then a.shared[id].lastState else None
      case Extra(id, _) => if id in a.accounts then a.accounts[id].lastState else None
      case Slot(id, _) => if id in a.accounts then a.accounts[id].lastState else None
    }

    predicate StillActive(a: Account) {
      match this
      case Primary => a.accounts != map[]
      case Shared(id, _) => id in a.shared
      case Extra(id, _) => id in a.accounts
      case Slot(id, _) => id in a.accounts
    }

    /** The store operation that moves this target's cursor. */
    function CursorWrite(chat: int, state: string): Op {
      match this
      case Primary => UpdateState(chat, state)
      case Shared(id, _) => UpdateSharedState(chat, id, state)
      case Extra(id, _) => UpdateAccountState(chat, id, state)
      case Slot(id, _) => UpdateAccountState(chat, id, state)
    }

    /** The stored record that holds this target's cursor. */
    function CursorPlace(a: Account): Place {
      match this
      case Primary => if a.accounts == map[] then Nowhere else InSlot(LeastKey(a.accounts.Keys))
      case Shared(id, _) => if id in a.shared then InShare(id) else Nowhere
      case Extra(id, _) => if id in a.accounts then InSlot(id) else Nowhere
      case Slot(id, _) => if id in a.accounts then InSlot(id) else Nowhere
    }

    function HealthKey(chat: int): string {
      match this
      case Primary => Decimal(chat) + "/primary"
      case Shared(id, _) => Decimal(chat) + "/shared-" + id
      case Extra(id, _) => SlotHealthKey(chat, id)
      case Slot(id, _) => SlotHealthKey(chat, id)
    }
  }

  function SlotHealthKey(chat: int, slotId: string): string {
    if slotId == "default" || slotId == "primary" then Decimal(chat) + "/primary"
    else Decimal(chat) + "/extra-" + slotId
  }

  // ---- Cursor reads and writes meet ----

  /** A cursor written for an active target is the one read back. Another target sees
      it exactly when it reads the same stored record: the same slot, the primary
      mailbox being the slot of the least key, or the same share. */
  lemma CursorReadsBack(target: WatchTarget, data: StoreData, chat: int, state: string)
    requires chat in data && target.StillActive(data[chat])
    ensures var after := Complete(target.CursorWrite(chat, state), data);
            && chat in after && target.StillActive(after[chat])
            && target.SinceState(after[chat]) == Some(state)
            && (forall other: WatchTarget ::
                  && other.CursorPlace(after[chat]) == other.CursorPlace(data[chat])
                  && other.SinceState(after[chat]) ==
                       if other.CursorPlace(data[chat]) == target.CursorPlace(data[chat]) then Some(state)
                       else other.SinceState(data[chat]))
  {
    var a := data[chat];
    var after := Complete(target.CursorWrite(chat, state), data)[chat];
    if a.accounts != map[] {
      assert IsLeast(LeastKey(a.accounts.Keys), a.accounts.Keys);
      assert after.accounts.Keys == a.accounts.Keys;
    } else {
      assert after.accounts == a.accounts;
    }
  }

  /** Operations of the target's own chat that leave its cursor alone, told from the
      call and the record: they neither write nor replace nor remove the record that
      holds it, nor the parent of a share that does, nor put a slot before the first. */
  predicate LeavesCursor(target: WatchTarget, op: Op, a: Account) {
    && !op.Set? && !op.Remove?
    && match target.CursorPlace(a)
       case InSlot(id) =>
         (match op
          case UpdateState(_, _) => a.accounts != map[] && LeastKey(a.accounts.Keys) != id
          case UpdateAccountState(_, slotId, _) => slotId != id
          case AddAccount(_, slot) => slot.slotId != id && !(target.Primary? && Before(slot.slotId, id))
          case RemoveAccount(_, slotId) => slotId != id
          case _ => true)
       case InShare(id) =>
         (match op
          case UpdateSharedState(_, accountId, _) => accountId != id
          case SetShared(_, accountId, _, _, _) => accountId != id
          case RemoveShared(_, accountId) => accountId != id
          case RemoveAccount(_, slotId) => id in a.shared && !a.shared[id].IsChildOf(slotId)
          case _ => true)
       case Nowhere => false
  }

  lemma LeastKeyIs(keys: set<string>, k: string)
    requires IsLeast(k, keys)
    ensures LeastKey(keys) == k
  {
    BeforeAntisymmetric(LeastKey(keys), k);
  }

  /** The first slot stays the first. */
  lemma PrimaryStays(op: Op, data: StoreData)
    requires op.chat in data && LeavesCursor(Primary, op, data[op.chat])
    ensures var after := Apply(op, data).data;
            op.chat in after && Primary.CursorPlace(after[op.chat]) == Primary.CursorPlace(data[op.chat])
  {
    var a := data[op.chat];
    var k, after := LeastKey(a.accounts.Keys), Apply(op, data).data[op.chat];
    assert IsLeast(k, a.accounts.Keys);
    if op.AddAccount? {
      BeforeTotal(op.slot.slotId, k);
    }
    assert IsLeast(k, after.accounts.Keys);
    LeastKeyIs(after.accounts.Keys, k);
  }

  lemma LeavesCursorKeepsIt(target: WatchTarget, op: Op, data: StoreData)
    requires op.chat in data && LeavesCursor(target, op, data[op.chat])
    ensures op.chat in Apply(op, data).data
    ensures target.SinceState(Apply(op, data).data[op.chat]) == target.SinceState(data[op.chat])
  {
    if target.Primary? {
      PrimaryStays(op, data);
    }
  }

  /** For a chat that is gone the write does nothing: nothing is re-created. */
  lemma CursorWriteNeverRevives(target: WatchTarget, data: StoreData, chat: int, state: string)
    requires chat !in data || !target.StillActive(data[chat])
    ensures Complete(target.CursorWrite(chat, state), data) == data
  {
    assert chat in data && target.Primary? ==> data[chat := data[chat]] == data;
  }

  // ---- Topics ----

  /** The forum topic a notification goes to. `dedicated`: shares have topics of
      their own; otherwise they use their parent's. */
  function TopicOf(t: WatchTarget, a: Account, threaded: bool, dedicated: bool): Option<int> {
    if !threaded then None else
    match t
    case Primary => if a.PrimarySlot().Some? then a.PrimarySlot().value.threadId else None
    case Extra(id, _) => if id in a.accounts then a.accounts[id].threadId else None
    case Slot(id, _) => if id in a.accounts then a.accounts[id].threadId else None
    case Shared(id, _) =>
      if id !in a.shared then None
      else if dedicated then a.shared[id].threadId
      else match a.ResolveParentSlot(a.shared[id]) case Some(slot) => slot.threadId case None => None
  }

  /** Where a notification goes, on the stored records: nowhere special without topics
      or for a target that is gone; else the topic of the slot the target names, of the
      first for the primary mailbox, of the share itself when shares have their own,
      and of the share's parent when they have not. */
  lemma TopicIs(t: WatchTarget, a: Account, dedicated: bool, k: string)
    requires k in a.accounts
    ensures TopicOf(t, a, false, dedicated) == None
    ensures t == Primary && IsLeast(k, a.accounts.Keys) ==> TopicOf(t, a, true, dedicated) == a.accounts[k].threadId
    ensures (t.Slot? || t.Extra?) && t.slotId == k ==> TopicOf(t, a, true, dedicated) == a.accounts[k].threadId
    ensures t.Shared? && t.accountId in a.shared && dedicated ==>
              TopicOf(t, a, true, dedicated) == a.shared[t.accountId].threadId
    ensures t.Shared? && t.accountId in a.shared && !dedicated && IsParentKey(a, a.shared[t.accountId], k) ==>
              TopicOf(t, a, true, dedicated) == a.accounts[k].threadId
    ensures !t.StillActive(a) ==> TopicOf(t, a, true, dedicated) == None
  {
    if IsLeast(k, a.accounts.Keys) {
      BeforeAntisymmetric(k, LeastKey(a.accounts.Keys));
    }
  }

  /** What the watcher writes when Telegram says the topic is gone. */
  function ClearTopic(t: WatchTarget, chat: int): Op {
    match t
    case Primary => SetAccountThread(chat, "default", None)
    case Extra(id, _) => SetAccountThread(chat, id, None)
    case Slot(id, _) => SetAccountThread(chat, id, None)
    case Shared(id, _) => SetSharedThread(chat, id, None)
  }

  /** After a lost topic, later syncs stop using it exactly when the record cleared is
      the one the topic was read from: not for a share that uses its parent's topic, nor
      for the primary mailbox when its slot is not "default". (The rest of the same sync
      goes by the account as read before it: `SyncCursor.LostTopicCostsTheSync`.) */
  lemma ClearingStopsTheTopicIff(t: WatchTarget, data: StoreData, chat: int, dedicated: bool)
    requires chat in data && TopicOf(t, data[chat], true, dedicated).Some?
    ensures var after := Complete(ClearTopic(t, chat), data);
            && chat in after
            && (TopicOf(t, after[chat], true, dedicated) == None <==>
                match t
                case Primary => LeastKey(data[chat].accounts.Keys) == "default"
                case Shared(_, _) => dedicated
                case _ => true)
  {
    var a, after := data[chat], Complete(ClearTopic(t, chat), data)[chat];
    assert after.accounts.Keys == a.accounts.Keys;
    assert t.Primary? ==> after.accounts != map[] by {
      if t.Primary? {
        var k := LeastKey(a.accounts.Keys);
        assert k in after.accounts;
      }
    }
  }

  // ---- Health keys ----

  /** A target's identity, with the spellings that share one registry entry. */
  datatype Identity = OfSlot(slotId: string) | OfShared(accountId: string)

  function IdentityOf(t: WatchTarget): Identity {
    match t
    case Primary => OfSlot("default")
    case Shared(id, _) => OfShared(id)
    case Extra(id, _) => if id == "primary" then OfSlot("default") else OfSlot(id)
    case Slot(id, _) => if id == "primary" then OfSlot("default") else OfSlot(id)
  }

  predicate KeyOfChat(key: string, chat: int) {
    var prefix := Decimal(chat) + "/";
    prefix <= key
  }

  lemma SlashSplitsOnce(a: string, b: string, c: string, d: string)
    requires '/' !in a && '/' !in c && a + "/" + b == c + "/" + d
    ensures a == c && b == d
  {
    SplitAtFirst(a, '/', b);
    SplitAtFirst(c, '/', d);
  }

  function KeyRest(t: WatchTarget): string {
    match IdentityOf(t)
    case OfShared(id) => "shared-" + id
    case OfSlot(id) => if id == "default" then "primary" else "extra-" + id
  }

  /** The keys as they stand in the metrics. The slot "default" keeps the name it had. */
  lemma KeysAsWritten(chat: int, id: string, caption: string)
    ensures Primary.HealthKey(chat) == Decimal(chat) + "/primary"
    ensures Slot("default", caption).HealthKey(chat) == Decimal(chat) + "/primary"
    ensures id != "default" && id != "primary" ==> Slot(id, caption).HealthKey(chat) == Decimal(chat) + "/extra-" + id
    ensures Extra(id, caption).HealthKey(chat) == Slot(id, caption).HealthKey(chat)
    ensures Shared(id, caption).HealthKey(chat) == Decimal(chat) + "/shared-" + id
  {
  }

  lemma AfterSlash(chat: string, word: string, id: string)
    ensures chat + ("/" + word) + id == chat + "/" + (word + id)
  {
  }

  lemma KeyShape(chat: int, t: WatchTarget)
    ensures t.HealthKey(chat) == Decimal(chat) + "/" + KeyRest(t)
    ensures '/' !in Decimal(chat)
  {
    assert "/primary" == "/" + "primary";
    AfterSlash(Decimal(chat), "primary", "");
    if t.Shared? {
      assert "/shared-" == "/" + "shared-";
      AfterSlash(Decimal(chat), "shared-", t.accountId);
    } else if !t.Primary? {
      assert "/extra-" == "/" + "extra-";
      AfterSlash(Decimal(chat), "extra-", t.slotId);
    }
  }

  lemma KeyRestInjective(s: WatchTarget, t: WatchTarget)
    requires KeyRest(s) == KeyRest(t)
    ensures IdentityOf(s) == IdentityOf(t)
  {
    var i, j := IdentityOf(s), IdentityOf(t);
    assert KeyRest(s)[0] == KeyRest(t)[0];
    if i.OfShared? && j.OfShared? {
      assert KeyRest(s)[7..] == i.accountId && KeyRest(t)[7..] == j.accountId;
    } else if i.OfSlot? && j.OfSlot? && i.slotId != "default" && j.slotId != "default" {
      assert KeyRest(s)[6..] == i.slotId && KeyRest(t)[6..] == j.slotId;
    }
  }

  /** Two targets share a registry key exactly when they are the same identity of
      the same chat, for any chat ids and any server-chosen account ids. */
  lemma HealthKeyInjective(c: int, s: WatchTarget, d: int, t: WatchTarget)
    ensures s.HealthKey(c) == t.HealthKey(d) <==> c == d && IdentityOf(s) == IdentityOf(t)
  {
    KeyShape(c, s);
    KeyShape(d, t);
    if s.HealthKey(c) == t.HealthKey(d) {
      SlashSplitsOnce(Decimal(c), KeyRest(s), Decimal(d), KeyRest(t));
      DecimalInjective(c, d);
      KeyRestInjective(s, t);
    }
  }

  /** The prefix scan of `deregister_chat` finds a key exactly when it is that chat's. */
  lemma KeyOfChatIsExact(c: int, t: WatchTarget, chat: int)
    ensures KeyOfChat(t.HealthKey(c), chat) <==> c == chat
  {
    KeyShape(c, t);
    KeyShape(chat, t);
    var key := t.HealthKey(c);
    if KeyOfChat(key, chat) {
      var prefix := Decimal(chat) + "/";
      assert key == prefix + key[|prefix|..];
      SlashSplitsOnce(Decimal(c), KeyRest(t), Decimal(chat), key[|prefix|..]);
      DecimalInjective(c, chat);
    }
  }

  // ---- Boot ----

  datatype ResumeTarget = ResumeTarget(target: WatchTarget, serverUrl: string, token: string)

  function SlotTarget(a: Account, slotId: string): ResumeTarget
    requires slotId in a.accounts
  {
    var slot := a.accounts[slotId];
    ResumeTarget(Slot(slotId, slot.email), slot.serverUrl, slot.token)
  }

  /** A share connects with the credentials of its resolved parent. */
  function SharedTarget(a: Account, id: string): Option<ResumeTarget>
    requires id in a.shared
  {
    match a.ResolveParentSlot(a.shared[id])
    case None => None
    case Some(slot) => Some(ResumeTarget(Shared(id, a.shared[id].name), slot.serverUrl, slot.token))
  }

  /** After migration boot brings a share back exactly when the slot it names, or
      "default" when it names none, is there; a unified record with a share without
      parent and no slot "default" loses that share. */
  lemma MigratedShareResumesIff(r: Record, id: string)
    requires Migrate(r).Ok? && id in GetOr(r.shared, map[])
    ensures id in Migrate(r).value.shared
    ensures SharedTarget(Migrate(r).value, id).Some? <==>
            ParentRead(GetOr(r.shared, map[])[id]) in Migrate(r).value.accounts
  {
    assert Migrate(r).value.shared == AdoptOrphans(GetOr(r.shared, map[]));
  }

  ghost predicate Distinct(targets: seq<ResumeTarget>) {
    forall i, j :: 0 <= i < j < |targets| ==> IdentityOf(targets[i].target) != IdentityOf(targets[j].target)
  }

  /** `t` connects to the server of this slot with its token. */
  predicate ConnectsAs(t: ResumeTarget, slot: AccountSlot) {
    t.serverUrl == slot.serverUrl && t.token == slot.token
  }

  /** A stored slot, shown by its address, with its own server and token. */
  ghost predicate IsSlotTarget(a: Account, t: ResumeTarget) {
    && t.target.Slot? && t.target.slotId in a.accounts
    && t.target.caption == a.accounts[t.target.slotId].email && ConnectsAs(t, a.accounts[t.target.slotId])
  }

  /** The slot a share names, or the least when it names none. */
  ghost predicate IsParentKey(a: Account, share: SharedAccount, k: string) {
    k in a.accounts && if share.parentSlot.Some? then share.parentSlot.value == k else IsLeast(k, a.accounts.Keys)
  }

  /** A stored share, shown by its name, with the server and token of its parent slot. */
  ghost predicate IsSharedTarget(a: Account, t: ResumeTarget) {
    && t.target.Shared? && t.target.accountId in a.shared
    && t.target.caption == a.shared[t.target.accountId].name
    && exists k :: IsParentKey(a, a.shared[t.target.accountId], k) && ConnectsAs(t, a.accounts[k])
  }

  /** There is one for each share whose parent resolves. */
  lemma SharedTargetIff(a: Account, id: string, t: ResumeTarget)
    requires id in a.shared
    ensures SharedTarget(a, id) == Some(t) <==> IsSharedTarget(a, t) && t.target.accountId == id
  {
    var share := a.shared[id];
    if a.accounts != map[] {
      var least := LeastKey(a.accounts.Keys);
      assert IsLeast(least, a.accounts.Keys);
      assert share.parentSlot == None ==> IsParentKey(a, share, least);
      if k :| IsParentKey(a, share, k) {
        assert share.parentSlot == None ==> k == least by {
          if share.parentSlot == None {
            BeforeAntisymmetric(k, least);
          }
        }
      }
    }
    assert share.parentSlot.Some? && share.parentSlot.value in a.accounts ==>
        IsParentKey(a, share, share.parentSlot.value);
    if IsSharedTarget(a, t) && t.target.accountId == id {
      var k :| IsParentKey(a, share, k) && ConnectsAs(t, a.accounts[k]);
      if share.parentSlot == None {
        BeforeAntisymmetric(k, LeastKey(a.accounts.Keys));
      }
    }
  }

  ghost predicate InKeyOrder(targets: seq<ResumeTarget>) {
    && (forall i :: 0 <= i < |targets| ==> targets[i].target.Slot?)
    && (forall i, j :: 0 <= i < j < |targets| ==> Before(targets[i].target.slotId, targets[j].target.slotId))
  }

  /** The slots in key order. */
  method SlotTargets(a: Account) returns (targets: seq<ResumeTarget>)
    ensures forall t :: t in targets <==> IsSlotTarget(a, t)
    ensures forall i, j :: 0 <= i < j < |targets| ==> targets[i].target != targets[j].target
    ensures |targets| == |a.accounts|
    ensures InKeyOrder(targets)
  {
    targets := [];
    var pending := a.accounts.Keys;
    while pending != {}
      invariant pending <= a.accounts.Keys
      invariant forall t :: t in targets <==> IsSlotTarget(a, t) && t.target.slotId !in pending
      invariant forall i, j :: 0 <= i < j < |targets| ==> targets[i].target != targets[j].target
      invariant |targets| + |pending| == |a.accounts|
      invariant InKeyOrder(targets)
      invariant forall i, k :: 0 <= i < |targets| && k in pending ==> Before(targets[i].target.slotId, k)
    {
      var k := LeastKey(pending);
      targets := targets + [SlotTarget(a, k)];
      pending := pending - {k};
    }
  }

  method SharedTargets(a: Account) returns (targets: seq<ResumeTarget>)
    ensures forall t :: t in targets <==> IsSharedTarget(a, t)
    ensures forall i, j :: 0 <= i < j < |targets| ==> targets[i].target != targets[j].target
    ensures GoodAccount(a) ==> |targets| == |a.shared|
  {
    targets := [];
    var pending := a.shared.Keys;
    while pending != {}
      invariant pending <= a.shared.Keys
      invariant forall t :: t in targets <==> IsSharedTarget(a, t) && t.target.accountId !in pending
      invariant forall i, j :: 0 <= i < j < |targets| ==> targets[i].target != targets[j].target
      invariant GoodAccount(a) ==> |targets| + |pending| == |a.shared|
    {
      var id :| id in pending;
      var t := SharedTarget(a, id);
      forall u: ResumeTarget
        ensures t == Some(u) <==> IsSharedTarget(a, u) && u.target.accountId == id
      {
        SharedTargetIff(a, id, u);
      }
      if t.Some? {
        targets := targets + [t.value];
      }
      pending := pending - {id};
    }
  }

  /** Every slot and every share whose parent resolves, with its own or its
      parent's credentials, and nothing else; each once. (A slot stored under
      "primary" would share the identity of "default", so it is set apart.) In a
      good account every share is listed. */
  method PersistedTargets(a: Account) returns (targets: seq<ResumeTarget>)
    ensures forall t :: t in targets <==> IsSlotTarget(a, t) || IsSharedTarget(a, t)
    ensures "primary" !in a.accounts ==> Distinct(targets)
    ensures GoodAccount(a) ==> |targets| == |a.accounts| + |a.shared|
  {
    var slots := SlotTargets(a);
    var shares := SharedTargets(a);
    targets := slots + shares;
    assert forall i :: 0 <= i < |targets| ==> if i < |slots| then targets[i] in slots else targets[i] in shares;
  }
}
