/** What each store operation means, field by field, without saying how it is computed:
    what it sets reads back, and everything else of the chat's record is as it was. */
module StoreLaws {
  import opened Basics
  import opened StoreModel
  import opened Picking

  // ---- Frames ----

  /** All but the slots, the shares and one plain field are the same. */
  ghost predicate SamePreferences(a: Account, b: Account) {
    a.language == b.language && a.muted == b.muted && a.threadsEnabled == b.threadsEnabled
  }

  ghost predicate OtherSlotsSame(a: Account, b: Account, slotId: string) {
    && (forall k :: k != slotId ==> (k in b.accounts <==> k in a.accounts))
    && (forall k :: k in a.accounts && k != slotId ==> b.accounts[k] == a.accounts[k])
  }

  ghost predicate OtherSharesSame(a: Account, b: Account, id: string) {
    && (forall k :: k != id ==> (k in b.shared <==> k in a.shared))
    && (forall k :: k in a.shared && k != id ==> b.shared[k] == a.shared[k])
  }

  /** One slot changed, and nothing else of the record. */
  ghost predicate OnlySlot(a: Account, b: Account, slotId: string) {
    slotId in b.accounts && OtherSlotsSame(a, b, slotId) && b.shared == a.shared && SamePreferences(a, b)
  }

  ghost predicate OnlyShare(a: Account, b: Account, id: string) {
    id in b.shared && OtherSharesSame(a, b, id) && b.accounts == a.accounts && SamePreferences(a, b)
  }

  ghost predicate SameCredentials(s: AccountSlot, t: AccountSlot) {
    s.slotId == t.slotId && s.serverUrl == t.serverUrl && s.token == t.token && s.email == t.email
  }

  /** The cursor of one slot is now `state`; its credentials and topic stay. */
  ghost predicate CursorMoved(a: Account, b: Account, slotId: string, state: string) {
    && slotId in a.accounts && OnlySlot(a, b, slotId)
    && SameCredentials(a.accounts[slotId], b.accounts[slotId])
    && b.accounts[slotId].threadId == a.accounts[slotId].threadId
    && b.accounts[slotId].lastState == Some(state)
  }

  ghost predicate TopicSet(a: Account, b: Account, slotId: string, topic: Option<int>) {
    && slotId in a.accounts && OnlySlot(a, b, slotId)
    && SameCredentials(a.accounts[slotId], b.accounts[slotId])
    && b.accounts[slotId].lastState == a.accounts[slotId].lastState
    && b.accounts[slotId].threadId == topic
  }

  ghost predicate ShareCursorMoved(a: Account, b: Account, id: string, state: string) {
    && id in a.shared && OnlyShare(a, b, id)
    && b.shared[id].name == a.shared[id].name && b.shared[id].parentSlot == a.shared[id].parentSlot
    && b.shared[id].threadId == a.shared[id].threadId && b.shared[id].lastState == Some(state)
  }

  ghost predicate ShareTopicSet(a: Account, b: Account, id: string, topic: Option<int>) {
    && id in a.shared && OnlyShare(a, b, id)
    && b.shared[id].name == a.shared[id].name && b.shared[id].parentSlot == a.shared[id].parentSlot
    && b.shared[id].lastState == a.shared[id].lastState && b.shared[id].threadId == topic
  }

  /** Every share that does not belong to the slot stays, as it was. */
  ghost predicate ChildrenGone(a: Account, b: Account, slotId: string) {
    && (forall id :: id in b.shared <==> id in a.shared && !(match a.shared[id].parentSlot
                                                              case Some(p) => p == slotId
                                                              case None => slotId == "default"))
    && (forall id :: id in b.shared ==> b.shared[id] == a.shared[id])
  }

  // ---- What an operation means ----

  /** The record after an operation on a chat that has one. */
  ghost predicate RecordMeant(op: Op, a: Account, b: Account) {
    match op
    case UpdateState(_, state) =>
      if a.accounts == map[] then b == a
      else exists k :: IsLeast(k, a.accounts.Keys) && CursorMoved(a, b, k, state)
    case UpdateAccountState(_, slotId, state) =>
      if slotId in a.accounts then CursorMoved(a, b, slotId, state) else b == a
    case SetAccountThread(_, slotId, topic) => if slotId in a.accounts then TopicSet(a, b, slotId, topic) else b == a
    case AddAccount(_, slot) => OnlySlot(a, b, slot.slotId) && b.accounts[slot.slotId] == slot
    case RemoveAccount(_, slotId) =>
      if slotId !in a.accounts then b == a
      else slotId !in b.accounts && OtherSlotsSame(a, b, slotId) && ChildrenGone(a, b, slotId) && SamePreferences(a, b)
    case UpdateSharedState(_, id, state) => if id in a.shared then ShareCursorMoved(a, b, id, state) else b == a
    case SetSharedThread(_, id, topic) => if id in a.shared then ShareTopicSet(a, b, id, topic) else b == a
    case SetShared(_, id, name, lastState, parent) =>
      && OnlyShare(a, b, id)
      && b.shared[id].name == name && b.shared[id].lastState == lastState && b.shared[id].parentSlot == parent
      && b.shared[id].threadId == None
    case RemoveShared(_, id) =>
      id !in b.shared && OtherSharesSame(a, b, id) && b.accounts == a.accounts && SamePreferences(a, b)
    case SetThreadsEnabled(_, enabled) => b == a.(threadsEnabled := enabled)
    case SetLanguage(_, lang) => b == a.(language := Some(lang))
    case Mute(_, term) => b == a.(muted := if term in a.muted then a.muted else a.muted + [term])
    case Unmute(_, term) => b == a.(muted := b.muted) && Picked(a.muted, b.muted, iset{term})
    case Set(_, account) => b == account
    case Remove(_) => false
  }

  /** The whole data: other chats as they were, this one as meant. A chat comes only by
      `set` and `add_account` and goes only by `remove` and with its last slot. */
  ghost predicate Meant(op: Op, data: StoreData, data': StoreData) {
    && (forall c :: c != op.chat ==> (c in data' <==> c in data))
    && (forall c :: c in data && c != op.chat ==> data'[c] == data[c])
    && match op
       case Set(chat, account) => chat in data' && data'[chat] == account
       case Remove(chat) => chat !in data'
       case AddAccount(chat, _) =>
         && chat in data'
         && RecordMeant(op, if chat in data then data[chat] else Account(None, map[], map[], [], None), data'[chat])
       case RemoveAccount(chat, slotId) =>
         if chat in data && data[chat].accounts.Keys == {slotId} then chat !in data'
         else (chat in data' <==> chat in data) && (chat in data ==> RecordMeant(op, data[chat], data'[chat]))
       case _ =>
         (op.chat in data' <==> op.chat in data) && (op.chat in data ==> RecordMeant(op, data[op.chat], data'[op.chat]))
  }

  lemma {:induction false} WithoutSnoc(terms: seq<string>, last: string, term: string)
    ensures Without(terms + [last], term) ==
            if last == term then Without(terms, term) else Without(terms, term) + [last]
  {
    if terms == [] {
      assert terms + [last] == [last] && [last][1..] == [];
    } else {
      assert (terms + [last])[1..] == terms[1..] + [last];
      WithoutSnoc(terms[1..], last, term);
    }
  }

  lemma WithoutPicksOneMore(terms: seq<string>, last: string, term: string)
    requires Picked(terms, Without(terms, term), iset{term})
    ensures Picked(terms + [last], Without(terms + [last], term), iset{term})
  {
    WithoutSnoc(terms, last, term);
    PickedSnoc(terms, Without(terms, term), iset{term}, last);
  }

  /** Taking a term out leaves the others, in order. */
  lemma {:induction false} WithoutPicks(terms: seq<string>, term: string)
    ensures Picked(terms, Without(terms, term), iset{term})
  {
    if terms == [] {
      PickNone(iset{term});
    } else {
      var front := terms[..|terms| - 1];
      WithoutPicks(front, term);
      WithoutPicksOneMore(front, Last(terms), term);
      assert terms == front + [Last(terms)];
    }
  }

  // ---- The operations do what they mean, and only that ----

  lemma LastSlotOf(a: Account, slotId: string)
    requires slotId in a.accounts
    ensures a.accounts - {slotId} == map[] <==> a.accounts.Keys == {slotId}
  {
    assert (a.accounts - {slotId}).Keys == a.accounts.Keys - {slotId};
    assert a.accounts - {slotId} == map[] <==> a.accounts.Keys - {slotId} == {};
  }

  /** The effect on the chat's own record, where it has one and keeps it. */
  lemma RecordIsMeant(op: Op, data: StoreData)
    requires op.chat in data && op.chat in Complete(op, data)
    ensures RecordMeant(op, data[op.chat], Complete(op, data)[op.chat])
  {
    var a, b := data[op.chat], Complete(op, data)[op.chat];
    match op
    case UpdateState(_, state) =>
      if a.accounts != map[] {
        var k := LeastKey(a.accounts.Keys);
        assert IsLeast(k, a.accounts.Keys) && CursorMoved(a, b, k, state);
      }
    case Unmute(_, term) =>
      WithoutPicks(a.muted, term);
      assert term !in a.muted ==> Without(a.muted, term) == a.muted by {
        if term !in a.muted {
          WithoutNothing(a.muted, term);
        }
      }
    case _ =>
  }

  lemma {:induction false} WithoutNothing(terms: seq<string>, term: string)
    requires term !in terms
    ensures Without(terms, term) == terms
  {
    if terms != [] {
      assert terms[0] in terms && forall t :: t in terms[1..] ==> t in terms;
      WithoutNothing(terms[1..], term);
    }
  }

  lemma CompleteIsMeant(op: Op, data: StoreData)
    ensures Meant(op, data, Complete(op, data))
  {
    forall c | c != op.chat
      ensures (c in Complete(op, data) <==> c in data) && (c in data ==> Complete(op, data)[c] == data[c])
    {
      OtherChatsUntouched(op, data, c);
    }
    if op.RemoveAccount? && op.chat in data && op.slotId in data[op.chat].accounts {
      LastSlotOf(data[op.chat], op.slotId);
    }
    if op.chat in data && op.chat in Complete(op, data) {
      RecordIsMeant(op, data);
    }
  }

  lemma SameRecord(op: Op, a: Account, b: Account, c: Account)
    requires RecordMeant(op, a, b) && RecordMeant(op, a, c)
    ensures b == c
  {
    if op.UpdateState? && a.accounts != map[] {
      SameFirstCursor(op, a, b, c);
    } else if op.Unmute? {
      SameTerms(op, a, b, c);
    } else if !op.UpdateState? {
      SameSlotsAndShares(op, a, b, c);
    }
  }

  lemma SameFirstCursor(op: Op, a: Account, b: Account, c: Account)
    requires op.UpdateState? && a.accounts != map[] && RecordMeant(op, a, b) && RecordMeant(op, a, c)
    ensures b == c
  {
    var k :| IsLeast(k, a.accounts.Keys) && CursorMoved(a, b, k, op.state);
    var l :| IsLeast(l, a.accounts.Keys) && CursorMoved(a, c, l, op.state);
    BeforeAntisymmetric(k, l);
    SameMaps(b.accounts, c.accounts);
  }

  lemma SameTerms(op: Op, a: Account, b: Account, c: Account)
    requires op.Unmute? && RecordMeant(op, a, b) && RecordMeant(op, a, c)
    ensures b == c
  {
    PickedIsUnique(a.muted, b.muted, c.muted, iset{op.term});
  }

  lemma SameMaps<V>(m: map<string, V>, n: map<string, V>)
    requires (forall k :: k in m <==> k in n) && forall k :: k in m && k in n ==> m[k] == n[k]
    ensures m == n
  {
  }

  lemma SameSlotsAndShares(op: Op, a: Account, b: Account, c: Account)
    requires RecordMeant(op, a, b) && RecordMeant(op, a, c) && !op.UpdateState? && !op.Unmute?
    ensures b == c
  {
    SameSlots(op, a, b, c);
    SameShares(op, a, b, c);
  }

  lemma SameSlots(op: Op, a: Account, b: Account, c: Account)
    requires RecordMeant(op, a, b) && RecordMeant(op, a, c) && !op.UpdateState? && !op.Unmute?
    ensures b.accounts == c.accounts
  {
    assert forall k :: k in b.accounts <==> k in c.accounts;
    SameMaps(b.accounts, c.accounts);
  }

  lemma SameShares(op: Op, a: Account, b: Account, c: Account)
    requires RecordMeant(op, a, b) && RecordMeant(op, a, c) && !op.UpdateState? && !op.Unmute?
    ensures b.shared == c.shared
  {
    assert forall k :: k in b.shared <==> k in c.shared;
    SameMaps(b.shared, c.shared);
  }

  /** Every operation does what it means, and nothing but that: its meaning has only
      the operation's own result. */
  lemma OnlyWhatIsMeant(op: Op, data: StoreData, data': StoreData)
    ensures data' == Complete(op, data) <==> Meant(op, data, data')
  {
    CompleteIsMeant(op, data);
    if Meant(op, data, data') {
      var r := Complete(op, data);
      if op.chat in data' && op.chat in r && !op.Set? {
        var before := if op.chat in data then data[op.chat] else Account(None, map[], map[], [], None);
        SameRecord(op, before, data'[op.chat], r[op.chat]);
      }
      assert forall c :: c in data' <==> c in r;
      assert forall c :: c in data' ==> data'[c] == r[c];
    }
  }

  /** What a call answers, and whether it writes. */
  lemma AnswersAndWrites(op: Op, data: StoreData)
    ensures var e := Apply(op, data); var found := op.chat in data;
            match op
            case Set(_, _) => e.persists && e.flag
            case AddAccount(_, _) => e.persists && e.flag
            case Remove(chat) => e.persists == e.flag == found
            case UpdateState(_, _) => e.persists == e.flag == found
            case SetThreadsEnabled(_, _) => e.persists == e.flag == found
            case SetLanguage(_, _) => e.persists == e.flag == found
            case SetShared(_, _, _, _, _) => e.persists == e.flag == found
            case RemoveAccount(chat, id) => e.persists == e.flag == (found && id in data[chat].accounts)
            case UpdateAccountState(chat, id, _) => e.persists == e.flag == (found && id in data[chat].accounts)
            case SetAccountThread(chat, id, _) => e.persists == e.flag == (found && id in data[chat].accounts)
            case RemoveShared(chat, id) => e.persists == e.flag == (found && id in data[chat].shared)
            case SetSharedThread(chat, id, _) => e.persists == e.flag == (found && id in data[chat].shared)
            case UpdateSharedState(chat, id, _) => e.persists == e.flag == (found && id in data[chat].shared)
            case Mute(chat, term) => e.persists == e.flag == (found && term !in data[chat].muted)
            case Unmute(chat, term) => e.persists == e.flag == (found && term in data[chat].muted)
  {
  }

  // ---- Reading a record ----

  /** A slot that a legacy record's own fields, or one of its extras, become. */
  predicate SlotHas(s: AccountSlot, id: string, serverUrl: string, token: string, email: string,
                    lastState: Option<string>) {
    && s.slotId == id && s.serverUrl == serverUrl && s.token == token && s.email == email
    && s.lastState == lastState && s.threadId == None
  }

  /** Every field of a record that is read ends in the field of the account that it is
      about, and it is refused exactly when neither layout has what it needs. */
  lemma MigrationFields(r: Record)
    ensures Migrate(r).Ok? <==> r.accounts.Some? || (r.serverUrl.Some? && r.token.Some? && r.email.Some?)
    ensures Migrate(r).Ok? ==>
              var a := Migrate(r).value;
              && a.language == r.language && a.threadsEnabled == r.threadsEnabled
              && (r.muted.Some? ==> a.muted == r.muted.value) && (r.muted == None ==> a.muted == [])
              && (r.shared == None ==> a.shared == map[])
              && (r.accounts.Some? ==> a.accounts == r.accounts.value)
    ensures Migrate(r).Ok? && r.shared.Some? ==> SharesRead(r.shared.value, Migrate(r).value.shared)
    ensures Migrate(r).Ok? && r.accounts == None ==> LegacySlotsRead(r, Migrate(r).value.accounts)
  {
  }

  ghost predicate SharesRead(stored: map<string, SharedAccount>, read: map<string, SharedAccount>) {
    && read.Keys == stored.Keys
    && forall id :: id in stored ==>
         && read[id].name == stored[id].name && read[id].lastState == stored[id].lastState
         && read[id].threadId == stored[id].threadId
         && (stored[id].parentSlot.Some? ==> read[id].parentSlot == stored[id].parentSlot)
         && (stored[id].parentSlot == None ==> read[id].parentSlot == Some("default"))
  }

  /** An extra of the name "default" takes the place of the record's own fields. */
  ghost predicate LegacySlotsRead(r: Record, read: map<string, AccountSlot>)
    requires r.serverUrl.Some? && r.token.Some? && r.email.Some?
  {
    && (forall id :: id in read <==> id == "default" || (r.extras.Some? && id in r.extras.value))
    && (r.extras.Some? ==> forall id :: id in r.extras.value ==>
          var x := r.extras.value[id]; SlotHas(read[id], id, x.serverUrl, x.token, x.email, x.lastState))
    && ((r.extras.Some? && "default" in r.extras.value) ||
        SlotHas(read["default"], "default", r.serverUrl.value, r.token.value, r.email.value, r.lastState))
  }

  // ---- The order of the slots ----

  /** At place i the strings differ for the first time, and there a is smaller. */
  predicate SmallerAt(a: string, b: string, i: nat) {
    i < |a| && i < |b| && a[..i] == b[..i] && a[i] < b[i]
  }

  /** The order of the slot map is the lexicographic one of strings. */
  lemma {:induction false} OrderIsLexicographic(a: string, b: string)
    ensures Before(a, b) <==> a <= b || exists i: nat :: SmallerAt(a, b, i)
  {
    if a != "" && b != "" && a[0] == b[0] {
      OrderIsLexicographic(a[1..], b[1..]);
      SmallerWithFirst(a, b);
      assert a == [a[0]] + a[1..] && b == [b[0]] + b[1..];
      assert a <= b <==> a[1..] <= b[1..];
    } else if a != "" && b != "" {
      assert SmallerAt(a, b, 0) <==> a[0] < b[0];
      forall i: nat | SmallerAt(a, b, i)
        ensures i == 0
      {
        if i > 0 {
          SameFirst(a, b, i);
        }
      }
    }
  }

  lemma SameFirst(a: string, b: string, i: nat)
    requires 0 < i <= |a| && i <= |b| && a[..i] == b[..i]
    ensures a[0] == b[0]
  {
    assert a[..i][0] == b[..i][0];
  }

  lemma SmallerWithFirst(a: string, b: string)
    requires a != "" && b != "" && a[0] == b[0]
    ensures (exists i: nat :: SmallerAt(a, b, i)) <==> (exists i: nat :: SmallerAt(a[1..], b[1..], i))
  {
    assert !SmallerAt(a, b, 0);
    if i: nat :| SmallerAt(a, b, i) {
      assert i > 0;
      assert a[..i][1..] == a[1..][..i - 1] && b[..i][1..] == b[1..][..i - 1];
      assert SmallerAt(a[1..], b[1..], i - 1);
    }
    if i: nat :| SmallerAt(a[1..], b[1..], i) {
      assert a[..i + 1] == [a[0]] + a[1..][..i] && b[..i + 1] == [b[0]] + b[1..][..i];
      assert SmallerAt(a, b, i + 1);
    }
  }
}
