/** Callback data: printed into the buttons of a notification, parsed back when one
    is tapped, and the keyboard that taps drive. */
module Callback {
  import opened Basics
  import opened StoreModel

  const CALLBACK_DATA_MAX_LEN: nat := 64

  /** `splitn(3, ':')`. */
  function SplitColon(s: string, parts: nat): (r: seq<string>)
    requires parts > 0
    ensures 1 <= |r| <= parts
    decreases parts
  {
    var k := IndexOf(s, ':');
    if parts == 1 || k == |s| then [s] else [s[..k]] + SplitColon(s[k + 1..], parts - 1)
  }

  function ActionData(action: char, account: Option<string>, email: string): string {
    match account
    case Some(id) => [action] + ":" + id + ":" + email
    case None => [action] + ":" + email
  }

  datatype Tapped = Tapped(action: string, account: Option<string>, email: string)

  /** The handler's reading of an email action; data without a colon is ignored. */
  function ParseTap(data: string): Option<Tapped> {
    var parts := SplitColon(data, 3);
    if |parts| == 1 then None else
    if |parts| == 2 then Some(Tapped(parts[0], None, parts[1]))
    else Some(Tapped(parts[0], Some(parts[1]), parts[2]))
  }

  /** A share toggle names the share and, unless it is "p", the slot to use. */
  function ToggleData(parent: Option<string>, id: string): string {
    match parent
    case None => "s:" + id
    case Some(slot) => "s:" + slot + ":" + id
  }

  /** The handler's reading of a share toggle: the share's id and the parent slot. */
  function ParseToggle(data: string): Option<(string, Option<string>)> {
    var parts := SplitColon(data, 3);
    if |parts| == 1 || parts[0] != "s" then None else
    if |parts| == 2 then Some((parts[1], None))
    else Some((parts[2], if parts[1] == "p" then None else Some(parts[1])))
  }

  lemma SplitTwo(a: string, b: string)
    requires ':' !in a
    ensures SplitColon(a + ":" + b, 3) == [a] + SplitColon(b, 2)
  {
    SplitAtFirst(a, ':', b);
  }

  lemma NoColon(s: string)
    ensures IndexOf(s, ':') == |s| <==> ':' !in s
  {
    var k := IndexOf(s, ':');
    assert k < |s| ==> s[k] in s;
  }

  lemma SplitRest(b: string)
    ensures ':' !in b ==> SplitColon(b, 2) == [b]
    ensures ':' in b ==> SplitColon(b, 2) == [b[..IndexOf(b, ':')], b[IndexOf(b, ':') + 1..]]
  {
    NoColon(b);
    if ':' in b {
      assert SplitColon(b[IndexOf(b, ':') + 1..], 1) == [b[IndexOf(b, ':') + 1..]];
    }
  }

  lemma SplitThree(a: string, b: string, c: string)
    requires ':' !in a && ':' !in b
    ensures SplitColon(a + ":" + b + ":" + c, 3) == [a, b, c]
  {
    var rest := b + ":" + c;
    assert a + ":" + b + ":" + c == a + ":" + rest;
    SplitTwo(a, rest);
    SplitAtFirst(b, ':', c);
    SplitRest(rest);
    assert rest[|b|] == ':' && ':' in rest;
  }

  /** Printing then parsing recovers action, account and email exactly when no
      colon hides where the parser splits: in the account id, or in the email id of
      a button without account. Ids of RFC 8620 section 1.2 have none. */
  lemma ActionRoundTrip(action: char, account: Option<string>, email: string)
    requires action != ':'
    ensures ParseTap(ActionData(action, account, email)) == Some(Tapped([action], account, email)) <==>
            (if account.Some? then ':' !in account.value else ':' !in email)
  {
    var a := [action];
    match account
    case None =>
      SplitTwo(a, email);
      SplitRest(email);
    case Some(id) =>
      if ':' !in id {
        SplitThree(a, id, email);
      } else {
        var rest := id + ":" + email;
        assert a + ":" + id + ":" + email == a + ":" + rest;
        SplitTwo(a, rest);
        SplitRest(rest);
        assert rest[|id|] == ':' && ':' in rest;
        assert ':' !in rest[..IndexOf(rest, ':')];
      }
  }

  predicate IdChar(c: char) {
    'a' <= c <= 'z' || 'A' <= c <= 'Z' || '0' <= c <= '9' || c == '-' || c == '_'
  }

  /** An id as section 1.2 of RFC 8620 allows it. */
  predicate ValidId(id: string) {
    1 <= |id| <= 255 && forall i :: 0 <= i < |id| ==> IdChar(id[i])
  }

  lemma ValidIdsRoundTrip(action: char, account: Option<string>, email: string)
    requires action != ':' && ValidId(email) && (account.Some? ==> ValidId(account.value))
    ensures ParseTap(ActionData(action, account, email)) == Some(Tapped([action], account, email))
  {
    ActionRoundTrip(action, account, email);
  }

  /** The same for a share toggle; a slot called "p" would be read as no slot. */
  lemma ToggleRoundTrip(parent: Option<string>, id: string)
    requires parent.Some? ==> ':' !in parent.value
    ensures ParseToggle(ToggleData(parent, id)) == Some((id, parent)) <==>
            (if parent.Some? then parent.value != "p" else ':' !in id)
  {
    match parent
    case None =>
      assert "s:" + id == "s" + ":" + id;
      SplitTwo("s", id);
      SplitRest(id);
    case Some(slot) =>
      assert "s:" + slot + ":" + id == "s" + ":" + slot + ":" + id;
      SplitThree("s", slot, id);
  }

  // ---- Routing ----

  /** Which stored slot a tap without account reaches: the first one. */
  function RouteWithoutAccount(a: Account): Option<string> {
    if a.PrimarySlot().Some? then Some(a.PrimarySlot().value.slotId) else None
  }

  /** Search results of the slot "default" carry no account, so their buttons reach
      it exactly when no stored slot key comes before "default". */
  lemma DefaultIsReachedIff(a: Account)
    requires "default" in a.accounts && (forall k :: k in a.accounts ==> a.accounts[k].slotId == k)
    ensures RouteWithoutAccount(a) == Some("default") <==> forall k :: k in a.accounts ==> Before("default", k)
  {
    var k := LeastKey(a.accounts.Keys);
    if forall j :: j in a.accounts ==> Before("default", j) {
      BeforeAntisymmetric("default", k);
    }
  }

  // ---- The keyboard ----

  datatype Face = FullText | MarkRead | AlreadyRead | Archive | Spam | Delete | Less | Expand | Undo

  datatype Button = Button(face: Face, data: string)

  type Keyboard = seq<seq<Button>>

  function Btn(face: Face, action: char, account: Option<string>, email: string): Button {
    Button(face, ActionData(action, account, email))
  }

  function NotificationKeyboard(email: string, account: Option<string>, alreadyRead: bool, expanded: bool): Keyboard {
    if Utf8Len(ActionData('d', account, email)) > CALLBACK_DATA_MAX_LEN then []
    else if expanded then
      [ [Btn(FullText, 'f', account, email),
         if alreadyRead then Btn(AlreadyRead, 'n', account, email) else Btn(MarkRead, 'r', account, email)],
        [Btn(Archive, 'a', account, email), Btn(Spam, 'j', account, email)],
        [Btn(Delete, 'd', account, email), Btn(Less, if alreadyRead then 'C' else 'c', account, email)] ]
    else
      [ [Btn(Archive, 'a', account, email), Btn(Delete, 'd', account, email),
         Btn(Expand, if alreadyRead then 'E' else 'e', account, email)] ]
  }

  function UndoKeyboard(email: string, account: Option<string>): Keyboard {
    if Utf8Len(ActionData('u', account, email)) > CALLBACK_DATA_MAX_LEN then []
    else [[Btn(Undo, 'u', account, email)]]
  }

  /** A message with its live keyboard and the mail's true read state. */
  datatype Chat = Chat(keyboard: Keyboard, read: bool)

  ghost predicate IsButton(k: Keyboard, b: Button) {
    exists i, j :: 0 <= i < |k| && 0 <= j < |k[i]| && k[i][j] == b
  }

  /** How a tap went: what it asked for was done (the mail server did it; for an undo
      also its slot was found), and the new keyboard reached the chat. A tap that was
      done but whose answer then fails counts as worked and not shown: the handler
      returns before it edits the message. */
  datatype Outcome = Outcome(worked: bool, shown: bool)

  /** A tap on a button of a notification. Everything is taken from the tapped data, as
      the handler does. */
  function Tap(c: Chat, data: string, o: Outcome): Chat {
    match ParseTap(data)
    case None => c
    case Some(t) => Act(c, t, o)
  }

  function Shows(c: Chat, k: Keyboard, o: Outcome): Chat {
    if o.shown then c.(keyboard := k) else c
  }

  function Act(c: Chat, t: Tapped, o: Outcome): Chat {
    if t.action == "e" then Shows(c, NotificationKeyboard(t.email, t.account, false, true), o)
    else if t.action == "E" then Shows(c, NotificationKeyboard(t.email, t.account, true, true), o)
    else if t.action == "c" then Shows(c, NotificationKeyboard(t.email, t.account, false, false), o)
    else if t.action == "C" then Shows(c, NotificationKeyboard(t.email, t.account, true, false), o)
    else if t.action == "r" && o.worked then
      Shows(c.(read := true), NotificationKeyboard(t.email, t.account, true, true), o)
    else if (t.action == "a" || t.action == "j" || t.action == "d") && o.worked then
      Shows(c, UndoKeyboard(t.email, t.account), o)
    else if t.action == "u" && o.worked then Shows(c, NotificationKeyboard(t.email, t.account, false, false), o)
    else c
  }

  // ---- What the keyboard shows ----

  /** The layouts of one mail: with a read state on display, or just the undo button. */
  datatype Layout = Menu(read: bool, expanded: bool) | UndoOnly

  function Drawn(l: Layout, email: string, account: Option<string>): Keyboard {
    match l
    case Menu(read, expanded) => NotificationKeyboard(email, account, read, expanded)
    case UndoOnly => UndoKeyboard(email, account)
  }

  predicate Fits(email: string, account: Option<string>) {
    Utf8Len(ActionData('d', account, email)) <= CALLBACK_DATA_MAX_LEN
  }

  /** The action letter behind each face. */
  function Letter(face: Face, read: bool): char {
    match face
    case FullText => 'f'
    case MarkRead => 'r'
    case AlreadyRead => 'n'
    case Archive => 'a'
    case Spam => 'j'
    case Delete => 'd'
    case Less => if read then 'C' else 'c'
    case Expand => if read then 'E' else 'e'
    case Undo => 'u'
  }

  /** Which faces a layout has. */
  predicate HasFace(l: Layout, face: Face) {
    match l
    case UndoOnly => face == Undo
    case Menu(read, expanded) =>
      match face
      case Archive => true
      case Delete => true
      case Expand => !expanded
      case MarkRead => expanded && !read
      case AlreadyRead => expanded && read
      case Undo => false
      case _ => expanded
  }

  /** Every action letter is one byte, so one length check stands for all. */
  lemma SameLength(action: char, account: Option<string>, email: string)
    requires action as int < 0x80
    ensures Utf8Len(ActionData(action, account, email)) == Utf8Len(ActionData('d', account, email))
  {
    var rest := if account.Some? then ":" + account.value + ":" + email else ":" + email;
    assert ActionData(action, account, email) == [action] + rest;
    assert ActionData('d', account, email) == ['d'] + rest;
    OneByteMore(action, rest);
    OneByteMore('d', rest);
  }

  lemma OneByteMore(c: char, rest: string)
    requires c as int < 0x80
    ensures Utf8Len([c] + rest) == 1 + Utf8Len(rest)
  {
    assert ([c] + rest)[1..] == rest;
  }

  function ShownRead(l: Layout): bool {
    l.Menu? && l.read
  }

  /** A button of a layout is one of its faces with that face's data. */
  lemma ButtonOfMenu(email: string, account: Option<string>, read: bool, expanded: bool, b: Button)
    requires IsButton(NotificationKeyboard(email, account, read, expanded), b)
    ensures Fits(email, account) && HasFace(Menu(read, expanded), b.face)
    ensures b == Btn(b.face, Letter(b.face, read), account, email)
  {
    var k := NotificationKeyboard(email, account, read, expanded);
    var i, j :| 0 <= i < |k| && 0 <= j < |k[i]| && k[i][j] == b;
  }

  lemma ButtonOfLayout(l: Layout, email: string, account: Option<string>, b: Button)
    requires IsButton(Drawn(l, email, account), b)
    ensures Fits(email, account) && HasFace(l, b.face)
    ensures b == Btn(b.face, Letter(b.face, ShownRead(l)), account, email)
    ensures Utf8Len(b.data) <= CALLBACK_DATA_MAX_LEN
  {
    match l {
      case Menu(read, expanded) => ButtonOfMenu(email, account, read, expanded, b);
      case UndoOnly =>
        SameLength('u', account, email);
        var k := UndoKeyboard(email, account);
        var i, j :| 0 <= i < |k| && 0 <= j < |k[i]| && k[i][j] == b;
    }
    SameLength(Letter(b.face, ShownRead(l)), account, email);
  }

  /** The layout after a tap on a face. */
  function NextLayout(l: Layout, face: Face, o: Outcome): Layout {
    if !o.shown then l else
    match face
    case Expand => Menu(ShownRead(l), true)
    case Less => Menu(ShownRead(l), false)
    case MarkRead => if o.worked then Menu(true, true) else l
    case Archive => if o.worked then UndoOnly else l
    case Spam => if o.worked then UndoOnly else l
    case Delete => if o.worked then UndoOnly else l
    case Undo => if o.worked then Menu(false, false) else l
    case _ => l
  }

  lemma TapMovesLayout(l: Layout, read: bool, email: string, account: Option<string>, b: Button, o: Outcome)
    requires IsButton(Drawn(l, email, account), b)
    requires if account.Some? then ':' !in account.value else ':' !in email
    ensures Tap(Chat(Drawn(l, email, account), read), b.data, o) ==
            Chat(Drawn(NextLayout(l, b.face, o), email, account), read || (b.face == MarkRead && o.worked))
    ensures ParseTap(b.data) == Some(Tapped([Letter(b.face, ShownRead(l))], account, email))
  {
    ButtonOfLayout(l, email, account, b);
    var action := Letter(b.face, ShownRead(l));
    ActionRoundTrip(action, account, email);
    ActMovesLayout(l, read, email, account, b.face, o);
  }

  lemma ActMovesLayout(l: Layout, read: bool, email: string, account: Option<string>, face: Face, o: Outcome)
    requires HasFace(l, face)
    ensures Act(Chat(Drawn(l, email, account), read), Tapped([Letter(face, ShownRead(l))], account, email), o) ==
            Chat(Drawn(NextLayout(l, face, o), email, account), read || (face == MarkRead && o.worked))
  {
    assert [Letter(face, ShownRead(l))][0] == Letter(face, ShownRead(l));
  }

  // ---- Runs of taps ----

  type Taps = seq<(Button, Outcome)>

  function FreshChat(email: string, account: Option<string>): Chat {
    Chat(NotificationKeyboard(email, account, false, false), false)
  }

  function After(email: string, account: Option<string>, taps: Taps): Chat {
    if taps == [] then FreshChat(email, account) else
      Tap(After(email, account, taps[..|taps| - 1]), Last(taps).0.data, Last(taps).1)
  }

  /** Each tap is on a button that is live at that moment. */
  ghost predicate Live(email: string, account: Option<string>, taps: Taps) {
    taps == [] ||
    (Live(email, account, taps[..|taps| - 1]) &&
        IsButton(After(email, account, taps[..|taps| - 1]).keyboard, Last(taps).0))
  }

  predicate MarksRead(t: (Button, Outcome)) {
    t.0.face == MarkRead && t.1.worked
  }

  predicate MarkedBefore(taps: Taps, i: int) {
    exists k :: 0 <= k < i && k < |taps| && MarksRead(taps[k])
  }

  /** A tap that leaves a read mail with an unread keyboard: a mark-read whose edit was
      lost, or an undo that puts the fresh keyboard back on a mail already read. */
  predicate Falsifies(taps: Taps, i: int)
    requires 0 <= i < |taps|
  {
    || (MarksRead(taps[i]) && !taps[i].1.shown)
    || (taps[i].0.face == Undo && taps[i].1.worked && taps[i].1.shown && MarkedBefore(taps, i))
  }

  /** A tap after which the keyboard shows the true state or none: a mark-read or a
      triage that reached server and chat. */
  predicate Repairs(t: (Button, Outcome)) {
    && t.1.worked && t.1.shown
    && (t.0.face == MarkRead || t.0.face == Archive || t.0.face == Spam || t.0.face == Delete)
  }

  predicate FalseSince(taps: Taps, i: int)
    requires 0 <= i < |taps|
  {
    Falsifies(taps, i) && forall j :: i < j < |taps| ==> !Repairs(taps[j])
  }

  /** Some tap made the keyboard false and none has repaired it since. */
  predicate ShowsFalse(taps: Taps) {
    exists i :: 0 <= i < |taps| && FalseSince(taps, i)
  }

  lemma FalsifiesSnoc(taps: Taps, t: (Button, Outcome), i: int)
    requires 0 <= i < |taps|
    ensures Falsifies(taps + [t], i) == Falsifies(taps, i)
    ensures MarkedBefore(taps + [t], i) == MarkedBefore(taps, i)
  {
    var more := taps + [t];
    assert forall k :: 0 <= k < i ==> more[k] == taps[k];
  }

  lemma FalseSinceSnoc(taps: Taps, t: (Button, Outcome), i: int)
    requires 0 <= i < |taps|
    ensures FalseSince(taps + [t], i) <==> FalseSince(taps, i) && !Repairs(t)
  {
    var more := taps + [t];
    FalsifiesSnoc(taps, t, i);
    assert forall j :: i < j < |taps| ==> more[j] == taps[j];
    assert more[|taps|] == t;
  }

  /** What one more tap does to the two histories. */
  lemma HistoriesSnoc(taps: Taps, t: (Button, Outcome))
    ensures MarkedBefore(taps + [t], |taps| + 1) <==> MarkedBefore(taps, |taps|) || MarksRead(t)
    ensures ShowsFalse(taps + [t]) <==>
            || (MarksRead(t) && !t.1.shown)
            || (t.0.face == Undo && t.1.worked && t.1.shown && MarkedBefore(taps, |taps|))
            || (ShowsFalse(taps) && !Repairs(t))
  {
    var more := taps + [t];
    assert forall k :: 0 <= k < |taps| ==> more[k] == taps[k];
    assert more[|taps|] == t;
    forall i | 0 <= i < |taps|
      ensures FalseSince(more, i) <==> FalseSince(taps, i) && !Repairs(t)
    {
      FalseSinceSnoc(taps, t, i);
    }
    assert MarkedBefore(more, |taps|) == MarkedBefore(taps, |taps|);
    assert FalseSince(more, |taps|) <==> Falsifies(more, |taps|);
  }

  /** Along any run of live taps the keyboard is a layout of this mail, the mail is read
      exactly when a mark-read worked, and the layout's read state is false exactly when
      the history says so. */
  lemma {:induction false} RunShows(email: string, account: Option<string>, taps: Taps) returns (l: Layout)
    requires if account.Some? then ':' !in account.value else ':' !in email
    requires Live(email, account, taps)
    ensures After(email, account, taps) == Chat(Drawn(l, email, account), MarkedBefore(taps, |taps|))
    ensures ShowsFalse(taps) <==> l.Menu? && l.read != MarkedBefore(taps, |taps|)
    ensures ShownRead(l) ==> MarkedBefore(taps, |taps|)
  {
    if taps == [] {
      l := Menu(false, false);
    } else {
      var front, t := taps[..|taps| - 1], Last(taps);
      assert taps == front + [t];
      var m := RunShows(email, account, front);
      TapMovesLayout(m, MarkedBefore(front, |front|), email, account, t.0, t.1);
      ButtonOfLayout(m, email, account, t.0);
      HistoriesSnoc(front, t);
      l := NextLayout(m, t.0.face, t.1);
    }
  }

  /** From a fresh notification, along any run of taps however they end, triage and undo
      included, every live button names the original message and account and fits
      Telegram's limit. */
  lemma LiveButtonsNameTheMail(email: string, account: Option<string>, taps: Taps, b: Button)
    requires if account.Some? then ':' !in account.value else ':' !in email
    requires Live(email, account, taps) && IsButton(After(email, account, taps).keyboard, b)
    ensures ParseTap(b.data).Some? && ParseTap(b.data).value.account == account && ParseTap(b.data).value.email == email
    ensures Utf8Len(b.data) <= 64
  {
    var l := RunShows(email, account, taps);
    ButtonOfLayout(l, email, account, b);
    TapMovesLayout(l, false, email, account, b, Outcome(false, false));
  }

  /** The keyboard is one for this mail that shows the read state as it is, or none. */
  ghost predicate Faithful(c: Chat, email: string, account: Option<string>) {
    exists l: Layout :: c.keyboard == Drawn(l, email, account) && (l.Menu? ==> l.read == c.read)
  }

  lemma LayoutsDiffer(email: string, account: Option<string>, l: Layout, m: Layout)
    requires Fits(email, account) && l.Menu? && Drawn(l, email, account) == Drawn(m, email, account)
    ensures l == m
  {
    var k: seq<seq<Button>>, k': seq<seq<Button>> := Drawn(l, email, account), Drawn(m, email, account);
    SameLength('u', account, email);
    assert k[0][0].face == k'[0][0].face && |k| == |k'|;
    if m.Menu? && l.expanded {
      assert k[0][1].face == k'[0][1].face;
    } else if m.Menu? {
      assert k[0][2].data[0] == k'[0][2].data[0];
    }
  }

  /** Along any run of live taps the keyboard shows the true read state exactly when no
      mark-read lost its edit, and no undo restored an already read mail, since the last
      mark-read or triage that went through. */
  lemma KeyboardIsTrueIff(email: string, account: Option<string>, taps: Taps)
    requires if account.Some? then ':' !in account.value else ':' !in email
    requires Fits(email, account) && Live(email, account, taps)
    ensures Faithful(After(email, account, taps), email, account) <==> !ShowsFalse(taps)
    ensures After(email, account, taps).read <==> MarkedBefore(taps, |taps|)
  {
    var l := RunShows(email, account, taps);
    OnlyLayout(After(email, account, taps), email, account, l);
  }

  /** A live button never calls an unread mail read, and calls a read mail unread only
      where the history shows a false keyboard. */
  lemma LiveButtonsStayTrue(email: string, account: Option<string>, taps: Taps, b: Button)
    requires if account.Some? then ':' !in account.value else ':' !in email
    requires Live(email, account, taps) && IsButton(After(email, account, taps).keyboard, b)
    ensures b.face == AlreadyRead ==> After(email, account, taps).read
    ensures b.face == MarkRead ==> (After(email, account, taps).read <==> ShowsFalse(taps))
  {
    var l := RunShows(email, account, taps);
    ButtonOfLayout(l, email, account, b);
  }

  /** One tap on a true keyboard: it stays true exactly unless the tap marks the mail
      read and loses the edit, or undoes a triage of a mail already read. */
  lemma TapKeepsFaithful(c: Chat, email: string, account: Option<string>, b: Button, o: Outcome)
    requires Faithful(c, email, account) && IsButton(c.keyboard, b)
    requires if account.Some? then ':' !in account.value else ':' !in email
    ensures Faithful(Tap(c, b.data, o), email, account) <==>
            && !(b.face == MarkRead && o.worked && !o.shown)
            && !(b.face == Undo && o.worked && o.shown && c.read)
    ensures c.read ==> Tap(c, b.data, o).read
  {
    var l: Layout :| c.keyboard == Drawn(l, email, account) && (l.Menu? ==> l.read == c.read);
    ButtonOfLayout(l, email, account, b);
    TapMovesLayout(l, c.read, email, account, b, o);
    OnlyLayout(Tap(c, b.data, o), email, account, NextLayout(l, b.face, o));
  }

  /** What is on display decides the layout, and so whether it is true. */
  lemma OnlyLayout(c: Chat, email: string, account: Option<string>, l: Layout)
    requires Fits(email, account) && c.keyboard == Drawn(l, email, account)
    ensures Faithful(c, email, account) <==> (l.Menu? ==> l.read == c.read)
  {
    if l.Menu? {
      forall m: Layout | c.keyboard == Drawn(m, email, account)
        ensures m == l
      {
        LayoutsDiffer(email, account, l, m);
      }
    }
  }

  /** The keyboard an undo puts back is the fresh one, so it shows the read state as
      it is exactly when the mail is unread (or no button fits at all). */
  lemma UndoKeyboardIsTrueIff(email: string, account: Option<string>, read: bool)
    ensures Faithful(Chat(NotificationKeyboard(email, account, false, false), read), email, account) <==>
            !read || !Fits(email, account)
  {
    var c := Chat(NotificationKeyboard(email, account, false, false), read);
    assert c.keyboard == Drawn(Menu(false, false), email, account);
    if Fits(email, account) {
      OnlyLayout(c, email, account, Menu(false, false));
    } else {
      assert c.keyboard == Drawn(Menu(read, false), email, account);
    }
  }

  lemma FaceIsButton(l: Layout, email: string, account: Option<string>, face: Face)
    requires Fits(email, account) && HasFace(l, face)
    ensures IsButton(Drawn(l, email, account), Btn(face, Letter(face, ShownRead(l)), account, email))
  {
    var k, b := Drawn(l, email, account), Btn(face, Letter(face, ShownRead(l)), account, email);
    SameLength('u', account, email);
    if l.UndoOnly? {
      assert k[0][0] == b;
    } else if l.expanded {
      assert k[0][0] == b || k[0][1] == b || k[1][0] == b || k[1][1] == b || k[2][0] == b || k[2][1] == b;
    } else {
      assert k[0][0] == b || k[0][1] == b || k[0][2] == b;
    }
  }

  /** One more tap, on a face of the layout on display. */
  lemma LiveTap(email: string, account: Option<string>, taps: Taps, l: Layout, face: Face, o: Outcome)
    returns (t: (Button, Outcome))
    requires if account.Some? then ':' !in account.value else ':' !in email
    requires Live(email, account, taps) && After(email, account, taps).keyboard == Drawn(l, email, account)
    requires Fits(email, account) && HasFace(l, face)
    ensures t == (Btn(face, Letter(face, ShownRead(l)), account, email), o)
    ensures Live(email, account, taps + [t])
    ensures After(email, account, taps + [t]).keyboard == Drawn(NextLayout(l, face, o), email, account)
  {
    t := (Btn(face, Letter(face, ShownRead(l)), account, email), o);
    assert (taps + [t])[..|taps|] == taps && Last(taps + [t]) == t;
    FaceIsButton(l, email, account, face);
    TapMovesLayout(l, After(email, account, taps).read, email, account, t.0, o);
  }

  const WENT_WELL := Outcome(true, true)

  /** The layout after taps on these faces that all go well. */
  function LayoutAfter(faces: seq<Face>): Layout {
    if faces == [] then Menu(false, false) else NextLayout(LayoutAfter(faces[..|faces| - 1]), Last(faces), WENT_WELL)
  }

  predicate OnDisplay(faces: seq<Face>) {
    faces == [] || (OnDisplay(faces[..|faces| - 1]) && HasFace(LayoutAfter(faces[..|faces| - 1]), Last(faces)))
  }

  function TapsOn(email: string, account: Option<string>, faces: seq<Face>): (taps: Taps)
    ensures |taps| == |faces| && forall i :: 0 <= i < |faces| ==> taps[i].0.face == faces[i] && taps[i].1 == WENT_WELL
  {
    if faces == [] then [] else
      var front, face := faces[..|faces| - 1], Last(faces);
      TapsOn(email, account, front)
      + [(Btn(face, Letter(face, ShownRead(LayoutAfter(front))), account, email), WENT_WELL)]
  }

  lemma {:induction false} TapsOnAreLive(email: string, account: Option<string>, faces: seq<Face>)
    requires if account.Some? then ':' !in account.value else ':' !in email
    requires Fits(email, account) && OnDisplay(faces)
    ensures Live(email, account, TapsOn(email, account, faces))
    ensures After(email, account, TapsOn(email, account, faces)).keyboard == Drawn(LayoutAfter(faces), email, account)
  {
    if faces != [] {
      var front := faces[..|faces| - 1];
      TapsOnAreLive(email, account, front);
      var t := LiveTap(email, account, TapsOn(email, account, front), LayoutAfter(front), Last(faces), WENT_WELL);
    }
  }

  /** So a run in which every call works can still end with a false keyboard: expand,
      mark read, archive, undo. */
  lemma UndoForgetsTheReadState(email: string, account: Option<string>)
    requires if account.Some? then ':' !in account.value else ':' !in email
    requires Fits(email, account)
    ensures var taps := TapsOn(email, account, [Expand, MarkRead, Archive, Undo]);
            Live(email, account, taps) && !Faithful(After(email, account, taps), email, account)
  {
    var faces := [Expand, MarkRead, Archive, Undo];
    var taps := TapsOn(email, account, faces);
    FourFacesOnDisplay();
    TapsOnAreLive(email, account, faces);
    assert MarksRead(taps[1]) && MarkedBefore(taps, 3) && Falsifies(taps, 3) && FalseSince(taps, 3);
    KeyboardIsTrueIff(email, account, taps);
  }

  lemma FourFacesOnDisplay()
    ensures OnDisplay([Expand, MarkRead, Archive, Undo])
  {
    var f1, f2, f3, f4 := [Expand], [Expand, MarkRead], [Expand, MarkRead, Archive], [Expand, MarkRead, Archive, Undo];
    assert f1[..0] == [] && f2[..1] == f1 && f3[..2] == f2 && f4[..3] == f3;
    assert LayoutAfter(f1) == Menu(false, true);
    assert LayoutAfter(f2) == Menu(true, true);
    assert LayoutAfter(f3) == UndoOnly;
    assert OnDisplay(f1) && OnDisplay(f2) && OnDisplay(f3);
  }

  // ---- The menu of shares ----

  datatype Share = Share(id: string, name: string, parent: Option<string>)

  /** One button per share whose data fits, rung when it is enabled. */
  function SharedKeyboard(shares: seq<Share>, enabled: set<string>): seq<(bool, string, string)> {
    if shares == [] then [] else
      var data := ToggleData(shares[0].parent, shares[0].id);
      (if Utf8Len(data) > CALLBACK_DATA_MAX_LEN then [] else [(shares[0].id in enabled, shares[0].name, data)])
      + SharedKeyboard(shares[1..], enabled)
  }

  /** Every button shown toggles one of the listed shares, under its own slot, with
      the bell that matches its opt-in; and a share is missing only for its length. */
  lemma {:induction false} SharedButtonsAreTrue(shares: seq<Share>, enabled: set<string>, row: (bool, string, string))
    requires forall i :: 0 <= i < |shares| ==> ValidId(shares[i].id)
    requires forall i :: 0 <= i < |shares| && shares[i].parent.Some? ==>
               ValidId(shares[i].parent.value) && shares[i].parent.value != "p"
    ensures row in SharedKeyboard(shares, enabled) <==>
            exists i :: 0 <= i < |shares|
              && row == (shares[i].id in enabled, shares[i].name, ToggleData(shares[i].parent, shares[i].id))
              && ParseToggle(row.2) == Some((shares[i].id, shares[i].parent))
              && Utf8Len(row.2) <= CALLBACK_DATA_MAX_LEN
  {
    if shares != [] {
      var tail := shares[1..];
      SharedButtonsAreTrue(tail, enabled, row);
      ToggleRoundTrip(shares[0].parent, shares[0].id);
      if row in SharedKeyboard(tail, enabled) {
        var i :| 0 <= i < |tail|
          && row == (tail[i].id in enabled, tail[i].name, ToggleData(tail[i].parent, tail[i].id))
          && ParseToggle(row.2) == Some((tail[i].id, tail[i].parent))
          && Utf8Len(row.2) <= CALLBACK_DATA_MAX_LEN;
        assert shares[i + 1] == tail[i];
      }
      forall i | 0 < i < |shares|
        ensures shares[i] == tail[i - 1]
      {
      }
    }
  }
}
