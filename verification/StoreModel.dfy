/** The stored data of the bot and what each store operation does to it under
    the data lock. Everything here is a value; `Store` applies these functions in
    place and `StoreMachine` interleaves them. */
module StoreModel {
  import opened Basics

  datatype AccountSlot = AccountSlot(
    slotId: string, serverUrl: string, token: string, email: string,
    lastState: Option<string>, threadId: Option<int>)

  datatype SharedAccount = SharedAccount(
    name: string, lastState: Option<string>, parentSlot: Option<string>, threadId: Option<int>)
  {
    predicate IsChildOf(slotId: string) {
      match parentSlot
      case Some(parent) => parent == slotId
      case None => slotId == "default"
    }
  }

  datatype Account = Account(
    language: Option<string>, shared: map<string, SharedAccount>,
    accounts: map<string, AccountSlot>, muted: seq<string>, threadsEnabled: Option<bool>)
  {
    /** The slot of the least key: `accounts` is an ordered map. */
    function PrimarySlot(): (r: Option<AccountSlot>) {
      if accounts == map[] then None else Some(accounts[LeastKey(accounts.Keys)])
    }

    function ResolveParentSlot(share: SharedAccount): Option<AccountSlot> {
      match share.parentSlot
      case Some(slot) => if slot in accounts then Some(accounts[slot]) else None
      case None => PrimarySlot()
    }
  }

  type StoreData = map<int, Account>

  // ---- String order of the account map ----

  predicate Before(a: string, b: string) {
    || a == ""
    || (b != "" && a[0] < b[0])
    || (b != "" && a[0] == b[0] && Before(a[1..], b[1..]))
  }

  lemma {:induction false} BeforeAntisymmetric(a: string, b: string)
    requires Before(a, b) && Before(b, a)
    ensures a == b
  {
    if a != "" && b != "" {
      BeforeAntisymmetric(a[1..], b[1..]);
      assert a == [a[0]] + a[1..] && b == [b[0]] + b[1..];
    }
  }

  lemma {:induction false} BeforeTransitive(a: string, b: string, c: string)
    requires Before(a, b) && Before(b, c)
    ensures Before(a, c)
  {
    if a != "" && a[0] == b[0] == c[0] {
      BeforeTransitive(a[1..], b[1..], c[1..]);
    }
  }

  lemma {:induction false} BeforeTotal(a: string, b: string)
    ensures Before(a, b) || Before(b, a)
  {
    if a != "" && b != "" && a[0] == b[0] {
      BeforeTotal(a[1..], b[1..]);
    }
  }

  predicate IsLeast(k: string, keys: set<string>) {
    k in keys && forall j :: j in keys ==> Before(k, j)
  }

  lemma {:induction false} LeastExists(keys: set<string>)
    requires keys != {}
    ensures exists k :: IsLeast(k, keys)
  {
    var x :| x in keys;
    var rest := keys - {x};
    BeforeTotal(x, x);
    if rest == {} {
      assert forall j :: j in keys ==> j == x || j in rest;
      assert IsLeast(x, keys);
    } else {
      LeastExists(rest);
      var k :| IsLeast(k, rest);
      BeforeTotal(x, k);
      var least := if Before(x, k) then x else k;
      forall j | j in keys
        ensures Before(least, j)
      {
        if j in rest && least == x {
          BeforeTransitive(x, k, j);
        }
      }
      assert IsLeast(least, keys);
    }
  }

  function LeastKey(keys: set<string>): (k: string)
    requires keys != {}
    ensures IsLeast(k, keys)
  {
    LeastExists(keys);
    assert forall a, b :: IsLeast(a, keys) && IsLeast(b, keys) ==> a == b by {
      forall a, b | IsLeast(a, keys) && IsLeast(b, keys)
        ensures a == b
      {
        BeforeAntisymmetric(a, b);
      }
    }
    var k :| k in keys && IsLeast(k, keys);
    k
  }

  // ---- Reading a stored record ----

  /** One chat's record as it stands in the decrypted file; an absent field is None. */
  datatype Record = Record(
    accounts: Option<map<string, AccountSlot>>,
    serverUrl: Option<string>, token: Option<string>, email: Option<string>,
    lastState: Option<string>, language: Option<string>,
    shared: Option<map<string, SharedAccount>>,
    extras: Option<map<string, LegacySlot>>,
    muted: Option<seq<string>>, threadsEnabled: Option<bool>)

  datatype LegacySlot = LegacySlot(serverUrl: string, token: string, email: string, lastState: Option<string>)

  function GetOr<T>(o: Option<T>, default: T): T {
    if o.Some? then o.value else default
  }

  function AdoptOrphans(shared: map<string, SharedAccount>): map<string, SharedAccount> {
    map id | id in shared ::
      if shared[id].parentSlot == None then shared[id].(parentSlot := Some("default")) else shared[id]
  }

  function LegacySlots(first: AccountSlot, extras: map<string, LegacySlot>): map<string, AccountSlot> {
    map["default" := first] +
    map id | id in extras ::
      AccountSlot(id, extras[id].serverUrl, extras[id].token, extras[id].email, extras[id].lastState, None)
  }

  /** The unified layout is tried first; the legacy one needs its three own fields. */
  function Migrate(r: Record): Result<Account> {
    var shared := AdoptOrphans(GetOr(r.shared, map[]));
    if r.accounts.Some? then
      Ok(Account(r.language, shared, r.accounts.value, GetOr(r.muted, []), r.threadsEnabled))
    else if r.serverUrl.Some? && r.token.Some? && r.email.Some? then
      var first := AccountSlot("default", r.serverUrl.value, r.token.value, r.email.value, r.lastState, None);
      Ok(Account(r.language, shared, LegacySlots(first, GetOr(r.extras, map[])), GetOr(r.muted, []), r.threadsEnabled))
    else Err
  }

  /** What the derived serializer writes for an account. */
  function ToRecord(a: Account): Record {
    Record(Some(a.accounts), None, None, None, None, a.language, Some(a.shared), None, Some(a.muted), a.threadsEnabled)
  }

  /** Reading back what was written: only an unparented share changes. */
  function Reload(data: StoreData): StoreData {
    map chat | chat in data :: data[chat].(shared := AdoptOrphans(data[chat].shared))
  }

  lemma ReloadIsMigratedRecord(data: StoreData, chat: int)
    requires chat in data
    ensures Migrate(ToRecord(data[chat])) == Ok(Reload(data)[chat])
    ensures (Reload(data)[chat] == data[chat]) <==>
            (forall id :: id in data[chat].shared ==> data[chat].shared[id].parentSlot != None)
  {
    var shared := data[chat].shared;
    if forall id :: id in shared ==> shared[id].parentSlot != None {
      assert AdoptOrphans(shared) == shared;
    } else {
      var id :| id in shared && shared[id].parentSlot == None;
      assert AdoptOrphans(shared)[id].parentSlot == Some("default");
    }
  }

  // ---- Operations ----

  datatype Op =
    | Set(chat: int, account: Account)
    | UpdateState(chat: int, state: string)
    | AddAccount(chat: int, slot: AccountSlot)
    | RemoveAccount(chat: int, slotId: string)
    | UpdateAccountState(chat: int, slotId: string, state: string)
    | SetAccountThread(chat: int, slotId: string, threadId: Option<int>)
    | SetSharedThread(chat: int, accountId: string, threadId: Option<int>)
    | SetThreadsEnabled(chat: int, enabled: Option<bool>)
    | SetLanguage(chat: int, lang: string)
    | SetShared(chat: int, accountId: string, name: string, lastState: Option<string>, parent: Option<string>)
    | RemoveShared(chat: int, accountId: string)
    | UpdateSharedState(chat: int, accountId: string, state: string)
    | Mute(chat: int, term: string)
    | Unmute(chat: int, term: string)
    | Remove(chat: int)

  /** What the critical section leaves behind: the new data, whether the call goes
      on to `persist`, whether a second critical section drops the whole chat, and
      the flag the call returns. */
  datatype Effect = Effect(data: StoreData, persists: bool, dropsChat: bool, flag: bool)

  function NoEffect(data: StoreData, flag: bool): Effect {
    Effect(data, false, false, flag)
  }

  function Changed(data: StoreData, chat: int, account: Account): Effect {
    Effect(data[chat := account], true, false, true)
  }

  const NEW_ACCOUNT := Account(None, map[], map[], [], None)

  function WithoutChildren(shared: map<string, SharedAccount>, slotId: string): map<string, SharedAccount> {
    map id | id in shared && !shared[id].IsChildOf(slotId) :: shared[id]
  }

  function Without(terms: seq<string>, term: string): (r: seq<string>)
    ensures term !in r
    ensures |r| <= |terms| && (|r| == |terms| <==> term !in terms)
  {
    if terms == [] then [] else
    if terms[0] == term then Without(terms[1..], term) else [terms[0]] + Without(terms[1..], term)
  }

  function WithSlot(a: Account, slotId: string, slot: AccountSlot): (r: Account)
    ensures r.accounts != map[]
  {
    assert slotId in a.accounts[slotId := slot];
    a.(accounts := a.accounts[slotId := slot])
  }

  function WithShared(a: Account, id: string, share: SharedAccount): Account {
    a.(shared := a.shared[id := share])
  }

  /** One store operation's (first) critical section. `flag` is the Boolean the
      call returns; calls without one return it as true when they found their
      target. */
  function Apply(op: Op, data: StoreData): Effect {
    match op
    case Set(chat, account) => Changed(data, chat, account)
    case AddAccount(chat, slot) =>
      var a := if chat in data then data[chat] else NEW_ACCOUNT;
      Changed(data, chat, WithSlot(a, slot.slotId, slot))
    case Remove(chat) => if chat in data then Effect(data - {chat}, true, false, true) else NoEffect(data, false)
    case _ =>
      if op.chat !in data then NoEffect(data, false) else ApplyToChat(op, data, data[op.chat])
  }

  function ApplyToChat(op: Op, data: StoreData, a: Account): Effect
    requires op.chat in data && data[op.chat] == a
    requires !op.Set? && !op.AddAccount? && !op.Remove?
  {
    match op
    case UpdateState(chat, state) =>
      if a.accounts == map[] then Changed(data, chat, a) else
        var k := LeastKey(a.accounts.Keys);
        Changed(data, chat, WithSlot(a, k, a.accounts[k].(lastState := Some(state))))
    case RemoveAccount(chat, slotId) =>
      if slotId !in a.accounts then NoEffect(data, false) else
        var rest := a.(accounts := a.accounts - {slotId}, shared := WithoutChildren(a.shared, slotId));
        Effect(data[chat := rest], true, rest.accounts == map[], true)
    case UpdateAccountState(chat, slotId, state) =>
      if slotId !in a.accounts then NoEffect(data, false) else
        Changed(data, chat, WithSlot(a, slotId, a.accounts[slotId].(lastState := Some(state))))
    case SetAccountThread(chat, slotId, threadId) =>
      if slotId !in a.accounts then NoEffect(data, false) else
        Changed(data, chat, WithSlot(a, slotId, a.accounts[slotId].(threadId := threadId)))
    case SetSharedThread(chat, id, threadId) =>
      if id !in a.shared then NoEffect(data, false) else
        Changed(data, chat, WithShared(a, id, a.shared[id].(threadId := threadId)))
    case SetThreadsEnabled(chat, enabled) => Changed(data, chat, a.(threadsEnabled := enabled))
    case SetLanguage(chat, lang) => Changed(data, chat, a.(language := Some(lang)))
    case SetShared(chat, id, name, lastState, parent) =>
      Changed(data, chat, WithShared(a, id, SharedAccount(name, lastState, parent, None)))
    case RemoveShared(chat, id) =>
      if id !in a.shared then NoEffect(data, false) else Changed(data, chat, a.(shared := a.shared - {id}))
    case UpdateSharedState(chat, id, state) =>
      if id !in a.shared then NoEffect(data, false) else
        Changed(data, chat, WithShared(a, id, a.shared[id].(lastState := Some(state))))
    case Mute(chat, term) =>
      if term in a.muted then NoEffect(data, false) else Changed(data, chat, a.(muted := a.muted + [term]))
    case Unmute(chat, term) =>
      if term !in a.muted then NoEffect(data, false) else Changed(data, chat, a.(muted := Without(a.muted, term)))
  }

  /** The whole operation with nothing in between its critical sections. */
  function Complete(op: Op, data: StoreData): StoreData {
    var e := Apply(op, data);
    if e.dropsChat then e.data - {op.chat} else e.data
  }

  // ---- What every operation keeps ----

  ghost predicate GoodAccount(a: Account) {
    && a.accounts != map[]
    && (forall k :: k in a.accounts ==> a.accounts[k].slotId == k)
    && (forall id :: id in a.shared ==> a.shared[id].parentSlot.Some? && a.shared[id].parentSlot.value in a.accounts)
  }

  ghost predicate Good(data: StoreData) {
    forall chat :: chat in data ==> GoodAccount(data[chat])
  }

  /** The parent slot named by an opt-in exists then, and a wholesale `set` is itself good. */
  ghost predicate FairOp(op: Op, data: StoreData) {
    match op
    case Set(_, a) => GoodAccount(a)
    case SetShared(chat, _, _, _, parent) =>
      chat in data ==> parent.Some? && parent.value in data[chat].accounts
    case _ => true
  }

  lemma KeepsGood(op: Op, data: StoreData)
    requires Good(data) && FairOp(op, data)
    ensures Good(Complete(op, data))
  {
    var r := Complete(op, data);
    forall chat | chat in r
      ensures GoodAccount(r[chat])
    {
      if chat != op.chat {
        OtherChatsUntouched(op, data, chat);
      } else if op.AddAccount? || op.UpdateState? || op.UpdateAccountState? || op.SetAccountThread? {
        KeepsGoodOnSlotWrite(op, data);
      } else if op.RemoveAccount? {
        KeepsGoodOnRemove(op, data);
      } else {
        KeepsGoodOtherwise(op, data);
      }
    }
  }

  lemma GoodWithSlot(a: Account, slotId: string, slot: AccountSlot)
    requires GoodAccount(a) || a == NEW_ACCOUNT
    requires slot.slotId == slotId
    ensures GoodAccount(WithSlot(a, slotId, slot))
  {
  }

  lemma KeepsGoodOnSlotWrite(op: Op, data: StoreData)
    requires Good(data) && op.chat in Complete(op, data)
    requires op.AddAccount? || op.UpdateState? || op.UpdateAccountState? || op.SetAccountThread?
    ensures GoodAccount(Complete(op, data)[op.chat])
  {
    match op
    case AddAccount(chat, slot) =>
      GoodWithSlot(if chat in data then data[chat] else NEW_ACCOUNT, slot.slotId, slot);
    case UpdateState(chat, state) =>
      var a := data[chat];
      var k := LeastKey(a.accounts.Keys);
      GoodWithSlot(a, k, a.accounts[k].(lastState := Some(state)));
    case UpdateAccountState(chat, id, state) =>
      if id in data[chat].accounts {
        GoodWithSlot(data[chat], id, data[chat].accounts[id].(lastState := Some(state)));
      }
    case SetAccountThread(chat, id, threadId) =>
      if id in data[chat].accounts {
        GoodWithSlot(data[chat], id, data[chat].accounts[id].(threadId := threadId));
      }
  }

  lemma KeepsGoodOnRemove(op: Op, data: StoreData)
    requires Good(data) && op.chat in Complete(op, data) && op.RemoveAccount?
    ensures GoodAccount(Complete(op, data)[op.chat])
  {
    assert op.chat in data;
    KeepsGoodOnRemoval(data[op.chat], op.slotId);
  }

  lemma GoodWithShared(a: Account, id: string, share: SharedAccount)
    requires GoodAccount(a) && share.parentSlot.Some? && share.parentSlot.value in a.accounts
    ensures GoodAccount(WithShared(a, id, share))
  {
  }

  lemma KeepsGoodOtherwise(op: Op, data: StoreData)
    requires Good(data) && FairOp(op, data) && op.chat in Complete(op, data)
    requires !op.AddAccount? && !op.UpdateState? && !op.UpdateAccountState? && !op.SetAccountThread?
    requires !op.RemoveAccount?
    ensures GoodAccount(Complete(op, data)[op.chat])
  {
    if op.chat in data && !op.Set? && !op.Remove? {
      var a := data[op.chat];
      match op
      case SetSharedThread(_, id, threadId) =>
        if id in a.shared {
          GoodWithShared(a, id, a.shared[id].(threadId := threadId));
        }
      case UpdateSharedState(_, id, state) =>
        if id in a.shared {
          GoodWithShared(a, id, a.shared[id].(lastState := Some(state)));
        }
      case SetShared(_, id, name, lastState, parent) =>
        GoodWithShared(a, id, SharedAccount(name, lastState, parent, None));
      case _ =>
    }
  }

  lemma KeepsGoodOnRemoval(a: Account, slotId: string)
    requires GoodAccount(a)
    ensures var rest := a.(accounts := a.accounts - {slotId}, shared := WithoutChildren(a.shared, slotId));
            rest.accounts != map[] ==> GoodAccount(rest)
  {
  }

  ghost predicate FairRun(ops: seq<Op>, data: StoreData)
    decreases |ops|
  {
    ops == [] || (FairOp(ops[0], data) && FairRun(ops[1..], Complete(ops[0], data)))
  }

  function RunOps(ops: seq<Op>, data: StoreData): StoreData
    decreases |ops|
  {
    if ops == [] then data else RunOps(ops[1..], Complete(ops[0], data))
  }

  lemma {:induction false} EveryRunKeepsGood(ops: seq<Op>, data: StoreData)
    requires Good(data) && FairRun(ops, data)
    ensures Good(RunOps(ops, data))
    decreases |ops|
  {
    if ops != [] {
      KeepsGood(ops[0], data);
      EveryRunKeepsGood(ops[1..], Complete(ops[0], data));
    }
  }

  /** A legacy record always migrates to an account with a slot under "default"
      and matching keys; it is good exactly when the parents it names exist. */
  lemma LegacyMigrationIsGood(r: Record)
    requires r.accounts == None && r.serverUrl.Some? && r.token.Some? && r.email.Some?
    ensures Migrate(r).Ok?
    ensures var a := Migrate(r).value;
            && "default" in a.accounts
            && (forall k :: k in a.accounts ==> a.accounts[k].slotId == k)
            && (GoodAccount(a) <==>
                var shared := GetOr(r.shared, map[]);
                forall id :: id in shared && shared[id].parentSlot.Some? ==> shared[id].parentSlot.value in a.accounts)
  {
    var a := Migrate(r).value;
    var shared := GetOr(r.shared, map[]);
    assert a.shared == AdoptOrphans(shared);
    if GoodAccount(a) {
      forall id | id in shared && shared[id].parentSlot.Some?
        ensures shared[id].parentSlot.value in a.accounts
      {
        assert a.shared[id] == shared[id];
      }
    }
  }

  /** The slot a share connects through once read: the one it names, or "default". */
  function ParentRead(share: SharedAccount): string {
    if share.parentSlot.Some? then share.parentSlot.value else "default"
  }

  /** A stored record, unified or legacy, from which a good account is read. */
  ghost predicate GoodRecord(r: Record) {
    var shared := GetOr(r.shared, map[]);
    if r.accounts.Some? then
      && r.accounts.value != map[]
      && (forall k :: k in r.accounts.value ==> r.accounts.value[k].slotId == k)
      && (forall id :: id in shared ==> ParentRead(shared[id]) in r.accounts.value)
    else
      && r.serverUrl.Some? && r.token.Some? && r.email.Some?
      && (forall id :: id in shared ==>
            ParentRead(shared[id]) == "default" || ParentRead(shared[id]) in GetOr(r.extras, map[]))
  }

  /** Migration gives a good account exactly for these records: a unified one must have
      slots, each under its own id, and for each share the slot it names, or a slot
      "default" when it names none. */
  lemma MigrationIsGoodIff(r: Record)
    ensures Migrate(r).Ok? && GoodAccount(Migrate(r).value) <==> GoodRecord(r)
  {
    var shared := GetOr(r.shared, map[]);
    if Migrate(r).Ok? {
      var a := Migrate(r).value;
      assert a.shared == AdoptOrphans(shared);
      assert forall id :: id in shared ==> a.shared[id].parentSlot == Some(ParentRead(shared[id]));
      if r.accounts == None {
        LegacyMigrationIsGood(r);
        assert forall k :: k in a.accounts <==> k == "default" || k in GetOr(r.extras, map[]);
      }
    }
  }

  /** What opening the file gives: every record must be readable. */
  function ReadAll(records: map<int, Record>): Result<StoreData> {
    if forall chat :: chat in records ==> Migrate(records[chat]).Ok? then
      Ok(map chat | chat in records :: Migrate(records[chat]).value)
    else Err
  }

  /** From migration on, legacy or unified, through every sequence of operations. */
  lemma EveryRunFromMigrationIsGood(records: map<int, Record>, ops: seq<Op>)
    requires forall chat :: chat in records ==> GoodRecord(records[chat])
    ensures ReadAll(records).Ok? && Good(ReadAll(records).value)
    ensures FairRun(ops, ReadAll(records).value) ==> Good(RunOps(ops, ReadAll(records).value))
  {
    forall chat | chat in records
      ensures Migrate(records[chat]).Ok? && GoodAccount(Migrate(records[chat]).value)
    {
      MigrationIsGoodIff(records[chat]);
    }
    if FairRun(ops, ReadAll(records).value) {
      EveryRunKeepsGood(ops, ReadAll(records).value);
    }
  }

  /** Reading a good store back changes nothing, so a restart keeps it good. */
  lemma GoodSurvivesReload(data: StoreData)
    requires Good(data)
    ensures Reload(data) == data
  {
    forall chat | chat in data
      ensures Reload(data)[chat] == data[chat]
    {
      ReloadIsMigratedRecord(data, chat);
    }
  }

  /** Removing a slot takes exactly that slot and the shares authorised under it;
      the chat itself goes exactly when it was the last slot; no other chat moves. */
  lemma RemoveAccountIsExact(data: StoreData, chat: int, slotId: string)
    requires Good(data) && chat in data && slotId in data[chat].accounts
    ensures var before := data[chat]; var after := Complete(RemoveAccount(chat, slotId), data);
            && after - {chat} == data - {chat}
            && (chat !in after <==> before.accounts.Keys == {slotId})
            && (chat in after ==>
                  && after[chat].accounts == before.accounts - {slotId}
                  && (forall id :: id in after[chat].shared <==>
                       && id in before.shared
                       && before.ResolveParentSlot(before.shared[id]) != Some(before.accounts[slotId]))
                  && (forall id :: id in after[chat].shared ==> after[chat].shared[id] == before.shared[id]))
  {
    var before := data[chat];
    var after := Complete(RemoveAccount(chat, slotId), data);
    assert after - {chat} == data - {chat};
    assert (before.accounts - {slotId}).Keys == before.accounts.Keys - {slotId};
    assert before.accounts - {slotId} == map[] <==> before.accounts.Keys - {slotId} == {};
    assert before.accounts.Keys - {slotId} == {} <==> before.accounts.Keys == {slotId};
    forall id | id in before.shared
      ensures before.shared[id].IsChildOf(slotId) <==>
          before.ResolveParentSlot(before.shared[id]) == Some(before.accounts[slotId])
    {
      var p := before.shared[id].parentSlot.value;
      assert before.accounts[p].slotId == p;
    }
  }

  /** The two readings of an unparented share, "default" for ownership and the
      first slot for credentials, agree exactly when the first slot is "default". */
  lemma UnparentedReadingsAgreeIff(a: Account, share: SharedAccount)
    requires a.accounts != map[] && (forall k :: k in a.accounts ==> a.accounts[k].slotId == k)
    requires share.parentSlot == None
    ensures share.IsChildOf(a.ResolveParentSlot(share).value.slotId) <==> LeastKey(a.accounts.Keys) == "default"
  {
    var k := LeastKey(a.accounts.Keys);
    assert a.ResolveParentSlot(share) == Some(a.accounts[k]);
  }

  /** No operation touches another chat's record, with or without its second section. */
  lemma OtherChatsUntouched(op: Op, data: StoreData, chat: int)
    requires chat != op.chat
    ensures chat in Complete(op, data) <==> chat in data
    ensures chat in data ==> Complete(op, data)[chat] == data[chat]
  {
  }

  predicate Recreates(op: Op, chat: int) {
    (op.AddAccount? || op.Set?) && op.chat == chat
  }

  /** Only `set` and `add_account` can bring a chat into the data. */
  lemma OnlyAddingRecreates(op: Op, data: StoreData, chat: int)
    requires chat !in data
    ensures chat in Apply(op, data).data <==> Recreates(op, chat)
  {
  }
}
