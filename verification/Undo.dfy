/** Triage and its undo. Chats act concurrently, other mail clients write at any
    time, the store and the cached clients change, and each triage or undo is split
    at its network calls. `past` keeps every state the server's mailboxes went through,
    `stores` every state of what the bot goes by, and `slots` every undo slot ever set. */
module Undo {
  import opened Basics
  import opened StoreModel

  const UNDO_WINDOW: nat := 30

  /** What a client logs in with. */
  datatype Login = Login(server: string, user: string)

  /** The account on a mail server that a client reads and writes: the user's own, or
      one shared with that user. */
  datatype Mailbox = Own(login: Login) | SharedWith(login: Login, accountId: string)

  /** A message on the server: its account there and its id. */
  datatype Mail = Mail(at: Mailbox, email: string)

  type Boxes = map<Mail, set<string>>

  datatype ClientKey = OfSlot(slotId: string) | OfShare(accountId: string)

  /** What the bot goes by: the stored records, and each cached client with what it
      logged in with. */
  datatype Known = Known(data: StoreData, clients: map<(int, ClientKey), Login>)

  function LoginOf(slot: AccountSlot): Login {
    Login(slot.serverUrl, slot.email)
  }

  /** What the stored records say for a slot, or for a share through its parent. */
  function StoredLogin(data: StoreData, chat: int, key: ClientKey): Option<Login> {
    if chat !in data then None else
    var a := data[chat];
    match key
    case OfSlot(id) => if id in a.accounts then Some(LoginOf(a.accounts[id])) else None
    case OfShare(id) =>
      if id !in a.shared then None
      else match a.ResolveParentSlot(a.shared[id]) case None => None case Some(slot) => Some(LoginOf(slot))
  }

  /** A cached client is used before a new one is made from the stored record. */
  function LoginFor(k: Known, chat: int, key: ClientKey): Option<Login> {
    if (chat, key) in k.clients then Some(k.clients[(chat, key)]) else StoredLogin(k.data, chat, key)
  }

  /** Which client a tap uses: a share's before a slot's of that name, and the first
      slot's when the button names none. */
  function KeyFor(k: Known, chat: int, account: Option<string>): Option<ClientKey> {
    match account
    case None =>
      if chat in k.data && k.data[chat].PrimarySlot().Some? then Some(OfSlot(k.data[chat].PrimarySlot().value.slotId))
      else None
    case Some(id) => if LoginFor(k, chat, OfShare(id)).Some? then Some(OfShare(id)) else Some(OfSlot(id))
  }

  function MailboxOf(key: ClientKey, login: Login): Mailbox {
    match key
    case OfSlot(_) => Own(login)
    case OfShare(id) => SharedWith(login, id)
  }

  /** Which account a tap's client is connected to. */
  function Resolve(k: Known, chat: int, account: Option<string>): Option<Mailbox> {
    match KeyFor(k, chat, account)
    case None => None
    case Some(key) =>
      match LoginFor(k, chat, key) case None => None case Some(login) => Some(MailboxOf(key, login))
  }

  /** A tap leaves its client cached. */
  function Connected(k: Known, chat: int, account: Option<string>): Known
    requires Resolve(k, chat, account).Some?
  {
    var key := KeyFor(k, chat, account).value;
    k.(clients := k.clients[(chat, key) := LoginFor(k, chat, key).value])
  }

  /** What a tap names. `at` is the account its client is connected to. */
  datatype Target = Target(account: Option<string>, at: Mailbox, email: string)
  {
    function OnServer(): Mail { Mail(at, email) }
  }

  datatype Pending = Pending(account: Option<string>, email: string, restore: set<string>, expiresAt: nat, slot: nat)

  /** The triage behind a slot: tapped when the store was `stores[storeAt]`, read when
      the mailboxes were `past[readAt]`, moved when they became `past[movedAt]`, slot
      set at time `setAt`. */
  datatype Slot = Slot(
    chat: int, target: Target, storeAt: nat, restore: set<string>, readAt: nat, movedAt: nat, folder: string,
        setAt: nat)

  /** A restore that reached the server: from which slot, when its expiry was checked,
      tapped when the store was `stores[storeAt]`. */
  datatype Restore = Restore(chat: int, target: Target, storeAt: nat, written: set<string>, checkedAt: nat, slot: nat)

  /** What a chat's handler is in the middle of, for a tap at `stores[storeAt]`. */
  datatype Work =
    | Triaging(target: Target, storeAt: nat, restore: set<string>, readAt: nat)
    | Moved(target: Target, storeAt: nat, restore: set<string>, readAt: nat, movedAt: nat, folder: string)
    | Undoing(target: Target, storeAt: nat, restore: set<string>, checkedAt: nat, slot: nat)

  datatype World = World(
    past: seq<Boxes>, stores: seq<Known>, now: nat, pending: map<int, Pending>, work: map<int, Work>,
    slots: seq<Slot>, restores: seq<Restore>)

  function Current(w: World): Boxes
    requires w.past != []
  {
    Last(w.past)
  }

  /** Where a tap of this chat that names this account goes now. */
  function Where(w: World, chat: int, account: Option<string>): Option<Mailbox>
    requires w.stores != []
  {
    Resolve(Last(w.stores), chat, account)
  }

  datatype Action =
    | Tick(d: nat)
    | Elsewhere(mail: Mail, boxes: set<string>)                    // another client moves a message
    | Destroy(mail: Mail)                                          // another client deletes a message
    | StoreOp(op: Op)                                              // a store operation of any chat
    | Cache(chat: int, key: ClientKey, login: Login)               // anyone caches the client it made
    | Drop(chat: int, key: ClientKey)                              // a teardown drops a cached client
    | ReadBoxes(chat: int, account: Option<string>, email: string) // mailbox_ids_of succeeds
    | Move(chat: int, folder: string)                              // archive, junk or delete succeeds
    | GiveUp(chat: int)                                            // the call in progress fails
    | SetSlot(chat: int)                                           // the tap was answered
    | TapUndo(chat: int, account: Option<string>, email: string)   // its client was found
    | Write(chat: int)                                             // restore_mailboxes succeeds
    | Forget(chat: int)

  /** When an undo tap finds its slot: not expired, same account name, same email. */
  predicate Matches(w: World, chat: int, account: Option<string>, email: string) {
    && chat in w.pending
    && w.now < w.pending[chat].expiresAt
    && w.pending[chat].account == account
    && w.pending[chat].email == email
  }

  predicate Enabled(w: World, a: Action) {
    && w.past != [] && w.stores != []
    && match a
       case ReadBoxes(chat, account, email) =>
         chat !in w.work && Where(w, chat, account).Some? && Mail(Where(w, chat, account).value, email) in Current(w)
       case Move(chat, _) =>
         chat in w.work && w.work[chat].Triaging? && w.work[chat].target.OnServer() in Current(w)
       case GiveUp(chat) => chat in w.work
       case SetSlot(chat) => chat in w.work && w.work[chat].Moved?
       case TapUndo(chat, account, _) => chat !in w.work && Where(w, chat, account).Some?
       case Write(chat) =>
         chat in w.work && w.work[chat].Undoing? && w.work[chat].target.OnServer() in Current(w)
       case Forget(chat) => chat !in w.work
       case _ => true
  }

  function Put(w: World, mail: Mail, boxes: set<string>): World
    requires w.past != []
  {
    w.(past := w.past + [Current(w)[mail := boxes]])
  }

  /** Store calls, and clients that come and go. */
  predicate StoreOrClient(a: Action) {
    a.StoreOp? || a.Cache? || a.Drop?
  }

  function Altered(k: Known, a: Action): Known
    requires StoreOrClient(a)
  {
    match a
    case StoreOp(op) => k.(data := Complete(op, k.data))
    case Cache(chat, key, login) => k.(clients := k.clients[(chat, key) := login])
    case Drop(chat, key) => k.(clients := k.clients - {(chat, key)})
  }

  function Knows(w: World, k: Known): World {
    w.(stores := w.stores + [k])
  }

  function Next(w: World, a: Action): World
    requires Enabled(w, a)
  {
    match a
    case Tick(d) => w.(now := w.now + d)
    case Elsewhere(mail, boxes) => Put(w, mail, boxes)
    case Destroy(mail) => w.(past := w.past + [Current(w) - {mail}])
    case StoreOp(_) => Knows(w, Altered(Last(w.stores), a))
    case Cache(_, _, _) => Knows(w, Altered(Last(w.stores), a))
    case Drop(_, _) => Knows(w, Altered(Last(w.stores), a))
    case ReadBoxes(chat, account, email) =>
      var target := Target(account, Where(w, chat, account).value, email);
      Knows(w, Connected(Last(w.stores), chat, account)).(
        work := w.work[chat := Triaging(target, |w.stores| - 1, Current(w)[target.OnServer()], |w.past| - 1)])
    case Move(chat, folder) =>
      var t := w.work[chat];
      Put(w, t.target.OnServer(), {folder}).(
        work := w.work[chat := Moved(t.target, t.storeAt, t.restore, t.readAt, |w.past|, folder)])
    case GiveUp(chat) => w.(work := w.work - {chat})
    case SetSlot(chat) =>
      var m := w.work[chat];
      w.(work := w.work - {chat},
         pending := w.pending[chat := Pending(m.target.account, m.target.email, m.restore, w.now + UNDO_WINDOW,
             |w.slots|)],
         slots := w.slots + [Slot(chat, m.target, m.storeAt, m.restore, m.readAt, m.movedAt, m.folder, w.now)])
    case TapUndo(chat, account, email) =>
      var popped := Knows(w, Connected(Last(w.stores), chat, account)).(pending := w.pending - {chat});
      if Matches(w, chat, account, email) then
        var target := Target(account, Where(w, chat, account).value, email);
        var p := w.pending[chat];
        popped.(work := w.work[chat := Undoing(target, |w.stores| - 1, p.restore, w.now, p.slot)])
      else popped
    case Write(chat) =>
      var u := w.work[chat];
      Put(w, u.target.OnServer(), u.restore).(
        work := w.work - {chat},
        restores := w.restores + [Restore(chat, u.target, u.storeAt, u.restore, u.checkedAt, u.slot)])
    case Forget(chat) => w.(pending := w.pending - {chat})
  }

  // ---- Invariant ----

  ghost predicate ReadFrom(past: seq<Boxes>, readAt: nat, mail: Mail, boxes: set<string>) {
    readAt < |past| && mail in past[readAt] && past[readAt][mail] == boxes
  }

  ghost predicate MovedTo(past: seq<Boxes>, readAt: nat, movedAt: nat, mail: Mail, folder: string) {
    readAt < movedAt < |past| && past[movedAt] == past[movedAt - 1][mail := {folder}]
  }

  /** The store as it was at the tap sent it to the account in `target`. */
  ghost predicate Resolved(w: World, storeAt: nat, chat: int, target: Target) {
    storeAt < |w.stores| && Resolve(w.stores[storeAt], chat, target.account) == Some(target.at)
  }

  ghost predicate SlotOk(w: World, s: Slot) {
    && Resolved(w, s.storeAt, s.chat, s.target)
    && ReadFrom(w.past, s.readAt, s.target.OnServer(), s.restore)
    && MovedTo(w.past, s.readAt, s.movedAt, s.target.OnServer(), s.folder)
  }

  /** The slot that an undo of (chat, account, email) may use. */
  ghost predicate SlotFor(w: World, slot: nat, chat: int, account: Option<string>, email: string,
                          restore: set<string>) {
    && slot < |w.slots|
    && w.slots[slot].chat == chat
    && w.slots[slot].target.account == account && w.slots[slot].target.email == email
    && w.slots[slot].restore == restore
  }

  ghost predicate PendingOk(w: World, chat: int, p: Pending) {
    && SlotFor(w, p.slot, chat, p.account, p.email, p.restore)
    && p.expiresAt == w.slots[p.slot].setAt + UNDO_WINDOW
  }

  ghost predicate WorkOk(w: World, chat: int, k: Work) {
    && Resolved(w, k.storeAt, chat, k.target)
    && match k
       case Triaging(t, _, restore, readAt) => ReadFrom(w.past, readAt, t.OnServer(), restore)
       case Moved(t, _, restore, readAt, movedAt, folder) =>
         ReadFrom(w.past, readAt, t.OnServer(), restore) && MovedTo(w.past, readAt, movedAt, t.OnServer(), folder)
       case Undoing(t, _, restore, checkedAt, slot) =>
         && SlotFor(w, slot, chat, t.account, t.email, restore)
         && w.slots[slot].setAt <= checkedAt < w.slots[slot].setAt + UNDO_WINDOW
  }

  ghost predicate RestoreOk(w: World, r: Restore) {
    && Resolved(w, r.storeAt, r.chat, r.target)
    && SlotFor(w, r.slot, r.chat, r.target.account, r.target.email, r.written)
    && w.slots[r.slot].setAt <= r.checkedAt < w.slots[r.slot].setAt + UNDO_WINDOW
  }

  /** No slot is in two places: pending, being undone, or already restored. */
  ghost predicate SlotsUsedOnce(w: World) {
    && (forall i, j :: 0 <= i < j < |w.restores| ==> w.restores[i].slot != w.restores[j].slot)
    && (forall c, i :: c in w.pending && 0 <= i < |w.restores| ==> w.restores[i].slot != w.pending[c].slot)
    && (forall c, i :: c in w.work && w.work[c].Undoing? && 0 <= i < |w.restores| ==>
        w.restores[i].slot != w.work[c].slot)
    && (forall c :: c in w.pending && c in w.work && w.work[c].Undoing? ==> w.pending[c].slot != w.work[c].slot)
  }

  ghost predicate FactsOk(w: World) {
    && w.past != [] && w.stores != []
    && (forall i :: 0 <= i < |w.slots| ==> SlotOk(w, w.slots[i]) && w.slots[i].setAt <= w.now)
    && (forall c :: c in w.pending ==> PendingOk(w, c, w.pending[c]))
    && (forall c :: c in w.work ==> WorkOk(w, c, w.work[c]))
    && (forall i :: 0 <= i < |w.restores| ==> RestoreOk(w, w.restores[i]))
  }

  ghost predicate Inv(w: World) {
    FactsOk(w) && SlotsUsedOnce(w)
  }

  /** The histories grow, and whatever a step adds or replaces is in order. */
  ghost predicate Extends(w: World, w': World) {
    && w.past <= w'.past && w.stores <= w'.stores && w.slots <= w'.slots && w.now <= w'.now
    && (forall i :: |w.slots| <= i < |w'.slots| ==> SlotOk(w', w'.slots[i]) && w'.slots[i].setAt <= w'.now)
    && (forall c :: c in w'.pending ==>
          (c in w.pending && w'.pending[c] == w.pending[c]) || PendingOk(w', c, w'.pending[c]))
    && (forall c :: c in w'.work ==> (c in w.work && w'.work[c] == w.work[c]) || WorkOk(w', c, w'.work[c]))
    && (forall i :: 0 <= i < |w'.restores| ==>
          (i < |w.restores| && w'.restores[i] == w.restores[i]) || RestoreOk(w', w'.restores[i]))
  }

  /** Everything recorded stays true as the histories grow. */
  lemma GrowingKeeps(w: World, w': World)
    requires FactsOk(w) && Extends(w, w')
    ensures FactsOk(w')
  {
    forall i | 0 <= i < |w'.slots|
      ensures SlotOk(w', w'.slots[i]) && w'.slots[i].setAt <= w'.now
    {
      assert i < |w.slots| ==> SlotOk(w, w.slots[i]) && w'.slots[i] == w.slots[i];
    }
    forall c | c in w'.pending
      ensures PendingOk(w', c, w'.pending[c])
    {
      assert c in w.pending ==> PendingOk(w, c, w.pending[c]);
    }
    forall c | c in w'.work
      ensures WorkOk(w', c, w'.work[c])
    {
      assert c in w.work ==> WorkOk(w, c, w.work[c]);
    }
    forall i | 0 <= i < |w'.restores|
      ensures RestoreOk(w', w'.restores[i])
    {
      assert i < |w.restores| ==> RestoreOk(w, w.restores[i]);
    }
  }

  /** A slot belongs to one chat. */
  lemma OthersKeepTheirSlots(w: World, chat: int)
    requires Inv(w) && chat in w.pending
    ensures forall c :: c in w.pending && c != chat ==> w.pending[c].slot != w.pending[chat].slot
  {
    assert PendingOk(w, chat, w.pending[chat]);
    forall c | c in w.pending && c != chat
      ensures w.pending[c].slot != w.pending[chat].slot
    {
      assert PendingOk(w, c, w.pending[c]);
    }
  }

  lemma OthersDoNotUndo(w: World, chat: int)
    requires Inv(w) && chat in w.work && w.work[chat].Undoing?
    ensures forall c :: c in w.work && c != chat && w.work[c].Undoing? ==> w.work[c].slot != w.work[chat].slot
    ensures forall c :: c in w.pending ==> w.pending[c].slot != w.work[chat].slot
  {
    assert WorkOk(w, chat, w.work[chat]);
    forall c | c in w.work && c != chat && w.work[c].Undoing?
      ensures w.work[c].slot != w.work[chat].slot
    {
      assert WorkOk(w, c, w.work[c]);
    }
    forall c | c in w.pending
      ensures w.pending[c].slot != w.work[chat].slot
    {
      assert PendingOk(w, c, w.pending[c]);
    }
  }

  lemma SetSlotKeeps(w: World, chat: int)
    requires Inv(w) && Enabled(w, SetSlot(chat))
    ensures Inv(Next(w, SetSlot(chat)))
  {
    var w' := Next(w, SetSlot(chat));
    assert WorkOk(w, chat, w.work[chat]) && SlotOk(w', w'.slots[|w.slots|]);
    GrowingKeeps(w, w');
    NewSlotIsUnused(w);
  }

  /** No recorded use is of a slot that does not exist yet. */
  lemma NewSlotIsUnused(w: World)
    requires FactsOk(w)
    ensures forall c :: c in w.pending ==> w.pending[c].slot < |w.slots|
    ensures forall i :: 0 <= i < |w.restores| ==> w.restores[i].slot < |w.slots|
    ensures forall c :: c in w.work && w.work[c].Undoing? ==> w.work[c].slot < |w.slots|
  {
    forall c | c in w.pending
      ensures w.pending[c].slot < |w.slots|
    {
      assert PendingOk(w, c, w.pending[c]);
    }
    forall i | 0 <= i < |w.restores|
      ensures w.restores[i].slot < |w.slots|
    {
      assert RestoreOk(w, w.restores[i]);
    }
    forall c | c in w.work && w.work[c].Undoing?
      ensures w.work[c].slot < |w.slots|
    {
      assert WorkOk(w, c, w.work[c]);
    }
  }

  lemma TapUndoKeepsFacts(w: World, chat: int, account: Option<string>, email: string)
    requires FactsOk(w) && Enabled(w, TapUndo(chat, account, email))
    ensures FactsOk(Next(w, TapUndo(chat, account, email)))
  {
    var w' := Next(w, TapUndo(chat, account, email));
    if Matches(w, chat, account, email) {
      assert PendingOk(w, chat, w.pending[chat]);
      assert WorkOk(w', chat, w'.work[chat]);
    }
    GrowingKeeps(w, w');
  }

  lemma TapUndoUsesOnce(w: World, chat: int, account: Option<string>, email: string)
    requires Inv(w) && Enabled(w, TapUndo(chat, account, email))
    ensures SlotsUsedOnce(Next(w, TapUndo(chat, account, email)))
  {
    if chat in w.pending {
      OthersKeepTheirSlots(w, chat);
    }
  }

  lemma WriteKeepsFacts(w: World, chat: int)
    requires FactsOk(w) && Enabled(w, Write(chat))
    ensures FactsOk(Next(w, Write(chat)))
  {
    var w' := Next(w, Write(chat));
    assert WorkOk(w, chat, w.work[chat]);
    assert RestoreOk(w', w'.restores[|w.restores|]);
    GrowingKeeps(w, w');
  }

  lemma WriteUsesOnce(w: World, chat: int)
    requires Inv(w) && Enabled(w, Write(chat))
    ensures SlotsUsedOnce(Next(w, Write(chat)))
  {
    var w' := Next(w, Write(chat));
    OthersDoNotUndo(w, chat);
    RestoredOnce(w, w', chat, w'.restores[|w.restores|]);
  }

  lemma RestoredOnce(w: World, w': World, chat: int, r: Restore)
    requires SlotsUsedOnce(w) && chat in w.work && w.work[chat].Undoing? && r.slot == w.work[chat].slot
    requires w'.restores == w.restores + [r] && w'.pending == w.pending && w'.work == w.work - {chat}
    requires forall c :: c in w.work && c != chat && w.work[c].Undoing? ==> w.work[c].slot != r.slot
    requires forall c :: c in w.pending ==> w.pending[c].slot != r.slot
    ensures SlotsUsedOnce(w')
  {
  }

  lemma TriageKeeps(w: World, a: Action)
    requires Inv(w) && Enabled(w, a) && (a.ReadBoxes? || a.Move?)
    ensures Inv(Next(w, a))
  {
    var w' := Next(w, a);
    if a.Move? {
      assert WorkOk(w, a.chat, w.work[a.chat]);
    }
    assert WorkOk(w', a.chat, w'.work[a.chat]);
    GrowingKeeps(w, w');
  }

  lemma OtherStepKeeps(w: World, a: Action)
    requires Inv(w) && Enabled(w, a)
    requires a.Tick? || a.Elsewhere? || a.Destroy? || a.GiveUp? || a.Forget? || StoreOrClient(a)
    ensures Inv(Next(w, a))
  {
    GrowingKeeps(w, Next(w, a));
  }

  lemma StepKeeps(w: World, a: Action)
    requires Inv(w) && Enabled(w, a)
    ensures Inv(Next(w, a))
  {
    match a
    case SetSlot(chat) => SetSlotKeeps(w, chat);
    case TapUndo(chat, account, email) =>
      TapUndoKeepsFacts(w, chat, account, email);
      TapUndoUsesOnce(w, chat, account, email);
    case Write(chat) =>
      WriteKeepsFacts(w, chat);
      WriteUsesOnce(w, chat);
    case ReadBoxes(_, _, _) => TriageKeeps(w, a);
    case Move(_, _) => TriageKeeps(w, a);
    case _ => OtherStepKeeps(w, a);
  }

  ghost predicate Reaches(w: World, actions: seq<Action>, w': World)
    decreases |actions|
  {
    if actions == [] then w == w' else
      Enabled(w, actions[0]) && Reaches(Next(w, actions[0]), actions[1..], w')
  }

  lemma {:induction false} RunsKeep(w: World, actions: seq<Action>, w': World)
    requires Inv(w) && Reaches(w, actions, w')
    ensures Inv(w')
    decreases |actions|
  {
    if actions != [] {
      StepKeeps(w, actions[0]);
      RunsKeep(Next(w, actions[0]), actions[1..], w');
    }
  }

  function Fresh(boxes: Boxes, known: Known): World {
    World([boxes], [known], 0, map[], map[], [], [])
  }

  /** In every run, whatever an undo writes is exactly the mailbox set read just before
      a successful triage, by the same chat, of a message of that account name and
      email; its expiry was checked within 30 seconds of the slot being set, and no
      slot is restored twice. */
  lemma RestoresAreJustified(boxes: Boxes, known: Known, actions: seq<Action>, w: World, i: nat)
    requires Reaches(Fresh(boxes, known), actions, w) && i < |w.restores|
    ensures var r := w.restores[i];
            && r.slot < |w.slots|
            && var s := w.slots[r.slot];
            && s.chat == r.chat && s.target.account == r.target.account && s.target.email == r.target.email
            && MovedTo(w.past, s.readAt, s.movedAt, s.target.OnServer(), s.folder)
            && s.target.OnServer() in w.past[s.readAt]
            && r.written == w.past[s.readAt][s.target.OnServer()]
            && s.setAt <= r.checkedAt < s.setAt + 30
    ensures forall j :: 0 <= j < |w.restores| && j != i ==> w.restores[j].slot != w.restores[i].slot
  {
    RunsKeep(Fresh(boxes, known), actions, w);
    var r := w.restores[i];
    assert RestoreOk(w, r) && SlotOk(w, w.slots[r.slot]);
  }

  /** At both times the button finds a client, both of a slot or both of the share it
      names, that logged in, or would from the stored record, to the same server as the
      same user. */
  predicate SameLogin(before: Known, after: Known, chat: int, account: Option<string>) {
    var key, key' := KeyFor(before, chat, account), KeyFor(after, chat, account);
    && key.Some? && key'.Some? && key.value.OfShare? == key'.value.OfShare?
    && LoginFor(before, chat, key.value).Some?
    && LoginFor(before, chat, key.value) == LoginFor(after, chat, key'.value)
  }

  lemma SameMailboxIff(before: Known, after: Known, chat: int, account: Option<string>)
    requires Resolve(before, chat, account).Some?
    ensures Resolve(before, chat, account) == Resolve(after, chat, account) <==>
            SameLogin(before, after, chat, account)
  {
  }

  /** The message written to is the one that was triaged exactly when the button's client
      is at the undo tap that of the same server and user as at the triage tap. */
  lemma RestoredIsTriagedIff(boxes: Boxes, known: Known, actions: seq<Action>, w: World, i: nat)
    requires Reaches(Fresh(boxes, known), actions, w) && i < |w.restores|
    ensures var r := w.restores[i];
            && r.slot < |w.slots| && r.storeAt < |w.stores| && w.slots[r.slot].storeAt < |w.stores|
            && (r.target.OnServer() == w.slots[r.slot].target.OnServer() <==>
                SameLogin(w.stores[w.slots[r.slot].storeAt], w.stores[r.storeAt], r.chat, r.target.account))
  {
    RunsKeep(Fresh(boxes, known), actions, w);
    var r := w.restores[i];
    assert RestoreOk(w, r) && SlotOk(w, w.slots[r.slot]);
    SameMailboxIff(w.stores[w.slots[r.slot].storeAt], w.stores[r.storeAt], r.chat, r.target.account);
  }

  function FirstKey(data: StoreData, chat: int): ClientKey
    requires chat in data && data[chat].accounts != map[]
  {
    OfSlot(LeastKey(data[chat].accounts.Keys))
  }

  /** For a button without account that is: the slot of the least key, whichever it is
      by then, has a client of the same server and user; where none is cached, its stored
      record has. */
  lemma UnnamedGoesTheSameWayIff(before: Known, after: Known, chat: int)
    requires Good(before.data) && Good(after.data) && chat in before.data && chat in after.data
    ensures var key, key' := FirstKey(before.data, chat), FirstKey(after.data, chat);
            && (Resolve(before, chat, None) == Resolve(after, chat, None) <==>
                LoginFor(before, chat, key) == LoginFor(after, chat, key'))
            && ((chat, key) !in before.clients && (chat, key') !in after.clients ==>
                 (Resolve(before, chat, None) == Resolve(after, chat, None) <==>
                  LoginOf(before.data[chat].accounts[key.slotId]) == LoginOf(after.data[chat].accounts[key'.slotId])))
  {
    var a, b := before.data[chat].accounts, after.data[chat].accounts;
    assert a[LeastKey(a.Keys)].slotId == LeastKey(a.Keys) && b[LeastKey(b.Keys)].slotId == LeastKey(b.Keys);
  }

  /** For a button that names a slot, and no share: the slot's client, or its record where
      none is cached, is not another mailbox's by then. */
  lemma NamedSlotGoesTheSameWayIff(before: Known, after: Known, chat: int, id: string)
    requires LoginFor(before, chat, OfShare(id)) == None && LoginFor(after, chat, OfShare(id)) == None
    requires (chat, OfSlot(id)) !in before.clients && (chat, OfSlot(id)) !in after.clients
    requires chat in before.data && id in before.data[chat].accounts
    requires chat in after.data && id in after.data[chat].accounts
    ensures Resolve(before, chat, Some(id)) == Resolve(after, chat, Some(id)) <==>
            LoginOf(before.data[chat].accounts[id]) == LoginOf(after.data[chat].accounts[id])
  {
  }

  /** For a button that names a share, with no client cached: its parent slot is not
      another mailbox's by then. */
  lemma NamedShareGoesTheSameWayIff(before: Known, after: Known, chat: int, id: string)
    requires Good(before.data) && Good(after.data)
    requires (chat, OfShare(id)) !in before.clients && (chat, OfShare(id)) !in after.clients
    requires chat in before.data && id in before.data[chat].shared
    requires chat in after.data && id in after.data[chat].shared
    ensures var a, b := before.data[chat], after.data[chat];
            Resolve(before, chat, Some(id)) == Resolve(after, chat, Some(id)) <==>
            LoginOf(a.accounts[a.shared[id].parentSlot.value]) == LoginOf(b.accounts[b.shared[id].parentSlot.value])
  {
  }

  /** A tap goes to the share of the button's name when a client for it is cached or its
      stored parent gives one, else to the slot of that name; without a name, to the slot
      of the least key; each time with the cached client before a new one. */
  lemma TapsReach(k: Known, chat: int, id: string)
    ensures (chat, OfShare(id)) in k.clients ==>
              Resolve(k, chat, Some(id)) == Some(SharedWith(k.clients[(chat, OfShare(id))], id))
    ensures (chat, OfShare(id)) !in k.clients && chat in k.data && id in k.data[chat].shared
              && k.data[chat].ResolveParentSlot(k.data[chat].shared[id]).Some? ==>
              var slot := k.data[chat].ResolveParentSlot(k.data[chat].shared[id]).value;
              Resolve(k, chat, Some(id)) == Some(SharedWith(Login(slot.serverUrl, slot.email), id))
    ensures LoginFor(k, chat, OfShare(id)) == None && (chat, OfSlot(id)) in k.clients ==>
              Resolve(k, chat, Some(id)) == Some(Own(k.clients[(chat, OfSlot(id))]))
    ensures LoginFor(k, chat, OfShare(id)) == None && (chat, OfSlot(id)) !in k.clients
              && chat in k.data && id in k.data[chat].accounts ==>
              var slot := k.data[chat].accounts[id];
              Resolve(k, chat, Some(id)) == Some(Own(Login(slot.serverUrl, slot.email)))
    ensures chat !in k.data ==> Resolve(k, chat, None) == None
    ensures Resolve(k, chat, Some(id)).Some? ==>
              || (chat, OfShare(id)) in k.clients || (chat, OfSlot(id)) in k.clients
              || (chat in k.data && (id in k.data[chat].shared || id in k.data[chat].accounts))
  {
  }

  /** An undo tap always uses up the chat's slot; it goes on exactly when the slot is of
      that account name and message and not 30 seconds old, and then with what the slot
      holds. Other chats' slots stay. */
  lemma UndoTapUsesUpSlot(w: World, chat: int, account: Option<string>, email: string)
    requires Enabled(w, TapUndo(chat, account, email))
    ensures var w' := Next(w, TapUndo(chat, account, email));
            && w'.pending == w.pending - {chat} && w'.past == w.past
            && (chat in w'.work <==>
                && chat in w.pending && w.now < w.pending[chat].expiresAt
                && w.pending[chat].account == account && w.pending[chat].email == email)
            && (chat in w'.work ==>
                  && w'.work[chat].Undoing? && w'.work[chat].restore == w.pending[chat].restore
                  && Some(w'.work[chat].target.at) == Where(w, chat, account) && w'.work[chat].target.email == email)
  {
  }

  /** A finished triage leaves a slot for 30 seconds with the mailboxes read before it. */
  lemma TriageLeavesSlot(w: World, chat: int)
    requires Enabled(w, SetSlot(chat))
    ensures var p := Next(w, SetSlot(chat)).pending; var m := w.work[chat];
            && chat in p && p - {chat} == w.pending - {chat}
            && p[chat].account == m.target.account && p[chat].email == m.target.email
            && p[chat].restore == m.restore && p[chat].expiresAt == w.now + 30
  {
  }

  /** The teardown of a chat drops its slot and no other. */
  lemma ForgetDropsSlot(w: World, chat: int)
    requires Enabled(w, Forget(chat))
    ensures var w' := Next(w, Forget(chat)); chat !in w'.pending && w'.pending == w.pending - {chat}
  {
  }

  // ---- A cached client stays ----

  predicate Touches(a: Action, chat: int, key: ClientKey) {
    (a.Cache? || a.Drop?) && a.chat == chat && a.key == key
  }

  ghost predicate Holds(w: World, chat: int, key: ClientKey, login: Login) {
    w.stores != [] && (chat, key) in Last(w.stores).clients && Last(w.stores).clients[(chat, key)] == login
  }

  lemma ClientStaysByStep(w: World, a: Action, chat: int, key: ClientKey, login: Login)
    requires Enabled(w, a) && !Touches(a, chat, key) && Holds(w, chat, key, login)
    ensures Holds(Next(w, a), chat, key, login)
  {
  }

  /** As long as nobody drops or replaces it, a client is used as it is, whatever becomes
      of the stored record it was made from. */
  lemma {:induction false} ClientStays(w: World, actions: seq<Action>, w': World, chat: int, key: ClientKey,
                                       login: Login)
    requires Holds(w, chat, key, login) && Reaches(w, actions, w')
    requires forall i :: 0 <= i < |actions| ==> !Touches(actions[i], chat, key)
    ensures Holds(w', chat, key, login) && LoginFor(Last(w'.stores), chat, key) == Some(login)
    decreases |actions|
  {
    if actions != [] {
      ClientStaysByStep(w, actions[0], chat, key, login);
      ClientStays(Next(w, actions[0]), actions[1..], w', chat, key, login);
    }
  }

  /** So after the first tap of a button on a share, every later tap goes the same way
      until the share's client is dropped or replaced; on a slot too, as long as no
      share of that name can connect. */
  lemma TapsGoTheSameWay(w: World, account: string, email: string, actions: seq<Action>, w': World, chat: int)
    requires Enabled(w, ReadBoxes(chat, Some(account), email))
    requires Reaches(Next(w, ReadBoxes(chat, Some(account), email)), actions, w')
    requires var key := KeyFor(Last(w.stores), chat, Some(account)).value;
             && (forall i :: 0 <= i < |actions| ==> !Touches(actions[i], chat, key))
             && w'.stores != []
             && (key.OfSlot? ==> LoginFor(Last(w'.stores), chat, OfShare(account)) == None)
    ensures Where(w', chat, Some(account)) == Where(w, chat, Some(account))
  {
    var key := KeyFor(Last(w.stores), chat, Some(account)).value;
    var w1 := Next(w, ReadBoxes(chat, Some(account), email));
    ClientStays(w1, actions, w', chat, key, LoginFor(Last(w.stores), chat, key).value);
  }

  // ---- Undoing restores ----

  /** Steps that leave one chat's slot and one message alone and the window open. */
  ghost predicate Quiet(w: World, a: Action, chat: int, mail: Mail) {
    match a
    case Tick(_) => true
    case StoreOp(_) => true
    case Cache(_, _, _) => true
    case Drop(_, _) => true
    case Elsewhere(m, _) => m != mail
    case Destroy(m) => m != mail
    case Move(c, _) => c != chat && (c in w.work ==> w.work[c].target.OnServer() != mail)
    case Write(c) => c != chat && (c in w.work ==> w.work[c].target.OnServer() != mail)
    case ReadBoxes(c, _, _) => c != chat
    case GiveUp(c) => c != chat
    case SetSlot(c) => c != chat
    case TapUndo(c, _, _) => c != chat
    case Forget(c) => c != chat
  }

  ghost predicate QuietRun(w: World, actions: seq<Action>, chat: int, mail: Mail)
    decreases |actions|
  {
    actions == [] ||
    (Quiet(w, actions[0], chat, mail) &&
        (Enabled(w, actions[0]) ==> QuietRun(Next(w, actions[0]), actions[1..], chat, mail)))
  }

  /** A stretch of such steps. */
  ghost predicate Between(w: World, actions: seq<Action>, w': World, chat: int, mail: Mail) {
    w.past != [] && w.stores != [] && Reaches(w, actions, w') && QuietRun(w, actions, chat, mail)
  }

  lemma QuietStep(w: World, a: Action, chat: int, mail: Mail)
    requires Enabled(w, a) && Quiet(w, a, chat, mail)
    ensures var w' := Next(w, a);
            && w'.past != [] && w'.stores != [] && w.now <= w'.now
            && (mail in Current(w) ==> mail in Current(w') && Current(w')[mail] == Current(w)[mail])
            && (chat in w.pending ==> chat in w'.pending && w'.pending[chat] == w.pending[chat])
            && (chat in w.work <==> chat in w'.work) && (chat in w.work ==> w'.work[chat] == w.work[chat])
  {
  }

  /** It leaves the message as it is, and the chat's slot and handler where they were. */
  lemma {:induction false} QuietKeeps(w: World, actions: seq<Action>, w': World, chat: int, mail: Mail)
    requires Between(w, actions, w', chat, mail)
    ensures w'.past != [] && w'.stores != [] && w.now <= w'.now
    ensures mail in Current(w) ==> mail in Current(w') && Current(w')[mail] == Current(w)[mail]
    ensures chat in w.pending ==> chat in w'.pending && w'.pending[chat] == w.pending[chat]
    ensures (chat in w.work <==> chat in w'.work) && (chat in w.work ==> w'.work[chat] == w.work[chat])
    decreases |actions|
  {
    if actions != [] {
      QuietStep(w, actions[0], chat, mail);
      QuietKeeps(Next(w, actions[0]), actions[1..], w', chat, mail);
    }
  }

  /** A triage and the undo of it, each call of theirs a step of its own with anything
      else in the four stretches between them: the clock, other chats, the store and
      other mail clients, as long as nobody else writes the message and the chat itself
      does nothing else. The message was read at `w`, moved at `w2`, its slot set at
      `w4`, the undo tapped at `w6` and written at `w8`. */
  ghost predicate TriageThenUndo(
      w: World, w2: World, w4: World, w6: World, w8: World,
      toMove: seq<Action>, toSlot: seq<Action>, toUndo: seq<Action>, toWrite: seq<Action>,
      chat: int, account: Option<string>, email: string, folder: string)
  {
    && Enabled(w, ReadBoxes(chat, account, email))
    && var mail := Mail(Where(w, chat, account).value, email);
    && Between(Next(w, ReadBoxes(chat, account, email)), toMove, w2, chat, mail)
    && Enabled(w2, Move(chat, folder))
    && Between(Next(w2, Move(chat, folder)), toSlot, w4, chat, mail)
    && Enabled(w4, SetSlot(chat))
    && Between(Next(w4, SetSlot(chat)), toUndo, w6, chat, mail)
    && Enabled(w6, TapUndo(chat, account, email))
    && Between(Next(w6, TapUndo(chat, account, email)), toWrite, w8, chat, mail)
  }

  /** The write of an undo; a server that has no such message answers an error. */
  function AfterWrite(w: World, chat: int): World {
    if Enabled(w, Write(chat)) then Next(w, Write(chat)) else w
  }

  /** The undo leaves the message in the mailboxes it was in before the triage exactly
      when it was tapped within 30 seconds of the slot being set and the button's client
      was then of the same server and user as at the triage's tap (or the triage had not
      moved the message at all). */
  lemma UndoRestoresIff(w: World, w2: World, w4: World, w6: World, w8: World,
                        toMove: seq<Action>, toSlot: seq<Action>, toUndo: seq<Action>, toWrite: seq<Action>,
                        chat: int, account: Option<string>, email: string, folder: string)
    requires TriageThenUndo(w, w2, w4, w6, w8, toMove, toSlot, toUndo, toWrite, chat, account, email, folder)
    ensures AfterWrite(w8, chat).past != [] && w6.stores != []
    ensures var mail := Mail(Where(w, chat, account).value, email);
            var done := Current(AfterWrite(w8, chat));
            && mail in done
            && (done[mail] == Current(w)[mail] <==>
                || (w6.now < w4.now + 30 && SameLogin(Last(w.stores), Last(w6.stores), chat, account))
                || Current(w)[mail] == {folder})
  {
    var mail := Mail(Where(w, chat, account).value, email);
    TriageSetsSlot(w, w2, w4, toMove, toSlot, chat, account, email, folder);
    QuietKeeps(Next(w4, SetSlot(chat)), toUndo, w6, chat, mail);
    UndoWrites(w6, w8, toWrite, chat, account, email, mail, w6.pending[chat]);
    SameMailboxIff(Last(w.stores), Last(w6.stores), chat, account);
  }

  lemma UndoWrites(w6: World, w8: World, toWrite: seq<Action>, chat: int, account: Option<string>, email: string,
                   mail: Mail, p: Pending)
    requires Enabled(w6, TapUndo(chat, account, email)) && mail.email == email && mail in Current(w6)
    requires chat in w6.pending && w6.pending[chat] == p && p.account == account && p.email == email
    requires Between(Next(w6, TapUndo(chat, account, email)), toWrite, w8, chat, mail)
    ensures AfterWrite(w8, chat).past != [] && mail in Current(AfterWrite(w8, chat))
    ensures Current(AfterWrite(w8, chat))[mail] ==
            if w6.now < p.expiresAt && Where(w6, chat, account) == Some(mail.at) then p.restore else Current(w6)[mail]
  {
    QuietKeeps(Next(w6, TapUndo(chat, account, email)), toWrite, w8, chat, mail);
  }

  lemma TriageSetsSlot(w: World, w2: World, w4: World, toMove: seq<Action>, toSlot: seq<Action>,
                       chat: int, account: Option<string>, email: string, folder: string)
    requires Enabled(w, ReadBoxes(chat, account, email))
    requires Enabled(w2, Move(chat, folder)) && Enabled(w4, SetSlot(chat))
    requires var mail := Mail(Where(w, chat, account).value, email);
             && Between(Next(w, ReadBoxes(chat, account, email)), toMove, w2, chat, mail)
             && Between(Next(w2, Move(chat, folder)), toSlot, w4, chat, mail)
    ensures var w5 := Next(w4, SetSlot(chat)); var mail := Mail(Where(w, chat, account).value, email);
            && w5.past != [] && mail in Current(w5) && Current(w5)[mail] == {folder}
            && chat !in w5.work && chat in w5.pending
            && w5.pending[chat] == Pending(account, email, Current(w)[mail], w4.now + UNDO_WINDOW, |w4.slots|)
  {
    var mail := Mail(Where(w, chat, account).value, email);
    QuietKeeps(Next(w, ReadBoxes(chat, account, email)), toMove, w2, chat, mail);
    QuietKeeps(Next(w2, Move(chat, folder)), toSlot, w4, chat, mail);
  }

  ghost predicate Leads(w: World, w': World) {
    exists actions :: Reaches(w, actions, w')
  }

  lemma LeadsOn(w: World, a: Action, w': World)
    requires Enabled(w, a) && Leads(Next(w, a), w')
    ensures Leads(w, w')
  {
    var rest :| Reaches(Next(w, a), rest, w');
    assert ([a] + rest)[0] == a && ([a] + rest)[1..] == rest;
    assert Reaches(w, [a] + rest, w');
  }

  ghost predicate AllStoreOrClient(changes: seq<Action>) {
    forall i :: 0 <= i < |changes| ==> StoreOrClient(changes[i])
  }

  /** What the bot goes by after these. */
  ghost function AllAltered(k: Known, changes: seq<Action>): Known
    requires AllStoreOrClient(changes)
    decreases |changes|
  {
    if changes == [] then k else AllAltered(Altered(k, changes[0]), changes[1..])
  }

  /** They touch nothing else. */
  lemma {:induction false} Alters(w: World, changes: seq<Action>) returns (w': World)
    requires w.past != [] && w.stores != [] && AllStoreOrClient(changes)
    ensures Leads(w, w') && w' == w.(stores := w'.stores)
    ensures w'.stores != [] && Last(w'.stores) == AllAltered(Last(w.stores), changes)
    decreases |changes|
  {
    if changes == [] {
      w' := w;
      assert Reaches(w, [], w);
    } else {
      w' := Alters(Next(w, changes[0]), changes[1..]);
      LeadsOn(w, changes[0], w');
    }
  }

  lemma {:induction false} LeadsThrough(w: World, actions: seq<Action>, w1: World, w': World)
    requires Reaches(w, actions, w1) && Leads(w1, w')
    ensures Leads(w, w')
    decreases |actions|
  {
    if actions != [] {
      LeadsThrough(Next(w, actions[0]), actions[1..], w1, w');
      LeadsOn(w, actions[0], w');
    }
  }

  /** The world after a triage whose three calls follow each other. */
  function Triaged(w: World, chat: int, account: Option<string>, email: string, folder: string): World
    requires Enabled(w, ReadBoxes(chat, account, email))
  {
    Next(Next(Next(w, ReadBoxes(chat, account, email)), Move(chat, folder)), SetSlot(chat))
  }

  lemma TriageLeads(w: World, chat: int, account: Option<string>, email: string, folder: string, w': World)
    requires Enabled(w, ReadBoxes(chat, account, email)) && Leads(Triaged(w, chat, account, email, folder), w')
    ensures Leads(w, w')
  {
    var w1 := Next(w, ReadBoxes(chat, account, email));
    var w2 := Next(w1, Move(chat, folder));
    LeadsOn(w2, SetSlot(chat), w');
    LeadsOn(w1, Move(chat, folder), w');
    LeadsOn(w, ReadBoxes(chat, account, email), w');
  }

  /** The state after a triage in a fresh world. */
  lemma TriageRuns(boxes: Boxes, known: Known, chat: int, account: Option<string>, email: string, folder: string)
    requires Enabled(Fresh(boxes, known), ReadBoxes(chat, account, email))
    ensures var w := Triaged(Fresh(boxes, known), chat, account, email, folder);
            var mail := Mail(Resolve(known, chat, account).value, email);
            && w.past == [boxes, boxes[mail := {folder}]] && w.stores == [known, Connected(known, chat, account)]
            && w.now == 0 && w.work == map[] && w.restores == [] && |w.slots| == 1
            && w.slots[0].target == Target(account, mail.at, email)
            && w.pending == map[chat := Pending(account, email, boxes[mail], UNDO_WINDOW, 0)]
  {
  }

  /** One undo has written, and it wrote the mailboxes of the triaged message onto
      `other`; the triaged message stays where the triage put it. */
  ghost predicate HitInstead(w: World, boxes: Boxes, mail: Mail, other: Mail, folder: string)
    requires mail in boxes
  {
    && |w.slots| == 1 && |w.restores| == 1 && w.past != []
    && w.slots[0].target.OnServer() == mail && w.restores[0].target.OnServer() == other && mail != other
    && Current(w) == boxes[mail := {folder}][other := boxes[mail]]
  }

  /** Whatever store calls and teardowns come between a triage and its undo: if they leave
      the button going to another account with a message of the same id, the undo writes
      the triaged message's mailboxes onto that one. */
  lemma OtherLoginIsHit(boxes: Boxes, known: Known, chat: int, account: Option<string>, email: string,
                        folder: string, changes: seq<Action>)
    returns (w: World)
    requires Enabled(Fresh(boxes, known), ReadBoxes(chat, account, email)) && AllStoreOrClient(changes)
    requires var later := Resolve(AllAltered(Connected(known, chat, account), changes), chat, account);
             later.Some? && later != Resolve(known, chat, account) && Mail(later.value, email) in boxes
    ensures Leads(Fresh(boxes, known), w)
    ensures var later := Resolve(AllAltered(Connected(known, chat, account), changes), chat, account);
            HitInstead(w, boxes, Mail(Resolve(known, chat, account).value, email), Mail(later.value, email), folder)
  {
    var w3 := Triaged(Fresh(boxes, known), chat, account, email, folder);
    TriageRuns(boxes, known, chat, account, email, folder);
    var w4 := Alters(w3, changes);
    w := UndoRuns(w4, chat, account, email);
    var between :| Reaches(w3, between, w4);
    LeadsThrough(w3, between, w4, w);
    TriageLeads(Fresh(boxes, known), chat, account, email, folder, w);
  }

  /** An undo tap and its write. */
  lemma UndoRuns(w: World, chat: int, account: Option<string>, email: string) returns (w': World)
    requires w.past != [] && w.stores != [] && chat !in w.work && Matches(w, chat, account, email)
    requires Where(w, chat, account).Some? && Mail(Where(w, chat, account).value, email) in Current(w)
    ensures Leads(w, w')
    ensures var mail := Mail(Where(w, chat, account).value, email);
            && w'.slots == w.slots && w'.past == w.past + [Current(w)[mail := w.pending[chat].restore]]
            && |w'.restores| == |w.restores| + 1 && w'.restores[|w.restores|].target.OnServer() == mail
  {
    var w1 := Next(w, TapUndo(chat, account, email));
    w' := Next(w1, Write(chat));
    assert Reaches(w', [], w');
    LeadsOn(w1, Write(chat), w');
    LeadsOn(w, TapUndo(chat, account, email), w');
  }

  lemma ThreeAltered(k: Known, changes: seq<Action>)
    requires |changes| == 3 && AllStoreOrClient(changes)
    ensures AllAltered(k, changes) == Altered(Altered(Altered(k, changes[0]), changes[1]), changes[2])
  {
    var k1 := Altered(k, changes[0]);
    var rest := changes[1..];
    var k2 := Altered(k1, rest[0]);
    assert AllAltered(k1, rest) == AllAltered(k2, rest[1..]);
    assert rest[1..][1..] == [] && AllAltered(k2, rest[1..]) == Altered(k2, rest[1..][0]);
  }

  /** A search result's button names no account. Between its triage and its undo the
      user adds a slot of another mailbox whose key comes first. */
  lemma UndoCanHitAnotherMail(boxes: Boxes, data: StoreData, chat: int, email: string, folder: string,
                          slot: AccountSlot)
    returns (w: World)
    requires Good(data) && chat in data && slot.slotId !in data[chat].accounts
    requires forall k :: k in data[chat].accounts ==> Before(slot.slotId, k)
    requires var first := data[chat].accounts[LeastKey(data[chat].accounts.Keys)];
             && LoginOf(first) != LoginOf(slot)
             && Mail(Own(LoginOf(first)), email) in boxes && Mail(Own(LoginOf(slot)), email) in boxes
    ensures var first := data[chat].accounts[LeastKey(data[chat].accounts.Keys)];
            && Leads(Fresh(boxes, Known(data, map[])), w)
            && HitInstead(w, boxes, Mail(Own(LoginOf(first)), email), Mail(Own(LoginOf(slot)), email), folder)
  {
    var known := Known(data, map[]);
    var least := LeastKey(data[chat].accounts.Keys);
    assert data[chat].accounts[least].slotId == least;
    var changes := [StoreOp(AddAccount(chat, slot))];
    var k := Connected(known, chat, None);
    assert changes[1..] == [] && AllAltered(k, changes) == Altered(k, changes[0]);
    AddedSlotIsFirst(k, chat, slot);
    w := OtherLoginIsHit(boxes, known, chat, None, email, folder, changes);
  }

  lemma AddedSlotIsFirst(k: Known, chat: int, slot: AccountSlot)
    requires chat in k.data && forall id :: id in k.data[chat].accounts ==> Before(slot.slotId, id)
    requires (chat, OfSlot(slot.slotId)) !in k.clients
    ensures Resolve(k.(data := Complete(AddAccount(chat, slot), k.data)), chat, None) == Some(Own(LoginOf(slot)))
  {
    var accounts := Complete(AddAccount(chat, slot), k.data)[chat].accounts;
    var least := LeastKey(accounts.Keys);
    assert slot.slotId in accounts.Keys;
    BeforeTotal(slot.slotId, slot.slotId);
    assert Before(least, slot.slotId) && Before(slot.slotId, least);
    BeforeAntisymmetric(least, slot.slotId);
  }

  /** A button that names its slot fares no better: the user removes the slot and logs
      in to another mailbox, which gets the same slot id, as "default" does when the
      slot removed was the only one. */
  lemma ReboundSlotIsHit(boxes: Boxes, data: StoreData, chat: int, email: string, folder: string, slot: AccountSlot)
    returns (w: World)
    requires chat in data && slot.slotId in data[chat].accounts && slot.slotId !in data[chat].shared
    requires var bound := data[chat].accounts[slot.slotId];
             && LoginOf(bound) != LoginOf(slot)
             && Mail(Own(LoginOf(bound)), email) in boxes && Mail(Own(LoginOf(slot)), email) in boxes
    ensures Leads(Fresh(boxes, Known(data, map[])), w)
    ensures HitInstead(w, boxes, Mail(Own(LoginOf(data[chat].accounts[slot.slotId])), email),
                       Mail(Own(LoginOf(slot)), email), folder)
  {
    var known, id := Known(data, map[]), slot.slotId;
    var changes := [Drop(chat, OfSlot(id)), StoreOp(RemoveAccount(chat, id)), StoreOp(AddAccount(chat, slot))];
    ThreeAltered(Connected(known, chat, Some(id)), changes);
    w := OtherLoginIsHit(boxes, known, chat, Some(id), email, folder, changes);
  }

  /** Nor does one that names a share: it is opted in again under another parent. */
  lemma ReparentedShareIsHit(boxes: Boxes, data: StoreData, chat: int, email: string, folder: string, id: string,
                             name: string, state: Option<string>, parent: string)
    returns (w: World)
    requires Good(data) && chat in data && id in data[chat].shared && parent in data[chat].accounts
    requires var a := data[chat]; var before := LoginOf(a.accounts[a.shared[id].parentSlot.value]);
             && before != LoginOf(a.accounts[parent])
             && Mail(SharedWith(before, id), email) in boxes
             && Mail(SharedWith(LoginOf(a.accounts[parent]), id), email) in boxes
    ensures var a := data[chat]; var before := LoginOf(a.accounts[a.shared[id].parentSlot.value]);
            && Leads(Fresh(boxes, Known(data, map[])), w)
            && HitInstead(w, boxes, Mail(SharedWith(before, id), email),
                          Mail(SharedWith(LoginOf(a.accounts[parent]), id), email), folder)
  {
    var known := Known(data, map[]);
    var changes := [Drop(chat, OfShare(id)), StoreOp(RemoveShared(chat, id)),
                    StoreOp(SetShared(chat, id, name, state, Some(parent)))];
    ThreeAltered(Connected(known, chat, Some(id)), changes);
    w := OtherLoginIsHit(boxes, known, chat, Some(id), email, folder, changes);
  }

  // ---- The handler itself ----

  /** The one-slot undo of each chat as the bot holds it, with the gauge that
      reports how many are open. */
  class UndoDesk {
    var pending: map<int, Pending>
    var gauge: nat
    var boxes: Boxes

    ghost predicate Valid()
      reads this
    {
      gauge == |pending|
    }

    constructor (boxes: Boxes)
      ensures Valid() && pending == map[] && this.boxes == boxes
    {
      pending, gauge := map[], 0;
      this.boxes := boxes;
    }

    method RefreshGauge()
      modifies `gauge
      ensures Valid()
    {
      gauge := |pending|;
    }

    /** `folder` is the mailbox with the action's role, if the account has one. The
        flags say whether the calls to the mail server and to Telegram succeed. */
    method PerformTriage(chat: int, target: Target, folder: Option<string>, moveOk: bool, answerOk: bool, now: nat,
                         slot: nat)
      returns (moved: bool)
      requires Valid()
      modifies this
      ensures Valid()
      ensures moved <==> target.OnServer() in old(boxes) && folder.Some? && moveOk
      ensures boxes == if moved then old(boxes)[target.OnServer() := {folder.value}] else old(boxes)
      ensures pending == if moved && answerOk
                         then old(pending)[chat := Pending(target.account, target.email,
                             old(boxes)[target.OnServer()], now + UNDO_WINDOW, slot)]
                         else old(pending)
    {
      if target.OnServer() !in boxes {
        return false;
      }
      var restore := boxes[target.OnServer()];
      if folder == None || !moveOk {
        return false;
      }
      boxes := boxes[target.OnServer() := {folder.value}];
      moved := true;
      if !answerOk {
        return;
      }
      pending := pending[chat := Pending(target.account, target.email, restore, now + UNDO_WINDOW, slot)];
      RefreshGauge();
    }

    /** An undo tap always uses up the chat's slot, whether or not it matches. */
    method TapUndo(chat: int, target: Target, writeOk: bool, now: nat) returns (restored: bool)
      requires Valid()
      modifies this
      ensures Valid() && pending == old(pending) - {chat}
      ensures restored <==> writeOk && target.OnServer() in old(boxes)
                            && chat in old(pending) && now < old(pending)[chat].expiresAt
                            && old(pending)[chat].account == target.account && old(pending)[chat].email == target.email
      ensures boxes == if restored then old(boxes)[target.OnServer() := old(pending)[chat].restore] else old(boxes)
    {
      var slot := if chat in pending then Some(pending[chat]) else None;
      pending := pending - {chat};
      RefreshGauge();
      match slot
      case None => restored := false;
      case Some(p) =>
        var expired := now >= p.expiresAt;
        var mine := p.account == target.account && p.email == target.email;
        if !expired && mine && target.OnServer() in boxes && writeOk {
          boxes := boxes[target.OnServer() := p.restore];
          restored := true;
        } else {
          restored := false;
        }
    }
  }
}
