/** The keyboards of a notification button by button, and what a tap on each does. */
module CallbackLaws {
  import opened Basics
  import opened Callback

  /** Each button as its face and the first character of its data. */
  function Shape(k: Keyboard): seq<seq<(Face, char)>>
    requires forall i, j :: 0 <= i < |k| && 0 <= j < |k[i]| ==> k[i][j].data != ""
  {
    seq(|k|, i requires 0 <= i < |k| =>
      seq(|k[i]|, j requires 0 <= j < |k[i]| => (k[i][j].face, k[i][j].data[0])))
  }

  ghost predicate Readable(k: Keyboard) {
    forall i, j :: 0 <= i < |k| && 0 <= j < |k[i]| ==> k[i][j].data != ""
  }

  /** The keyboard has these buttons, in these rows. */
  ghost predicate HasShape(k: Keyboard, shape: seq<seq<(Face, char)>>) {
    Readable(k) && Shape(k) == shape
  }

  function Collapsed(read: bool): seq<seq<(Face, char)>> {
    [[(Archive, 'a'), (Delete, 'd'), (Expand, if read then 'E' else 'e')]]
  }

  function Expanded(read: bool): seq<seq<(Face, char)>> {
    [ [(FullText, 'f'), if read then (AlreadyRead, 'n') else (MarkRead, 'r')],
      [(Archive, 'a'), (Spam, 'j')],
      [(Delete, 'd'), (Less, if read then 'C' else 'c')] ]
  }

  /** "d:account:email", or "d:email" without account. */
  function LongestData(account: Option<string>, email: string): string {
    if account.Some? then "d:" + account.value + ":" + email else "d:" + email
  }

  lemma DataStarts(action: char, account: Option<string>, email: string)
    ensures ActionData(action, account, email) != "" && ActionData(action, account, email)[0] == action
  {
  }

  lemma SameLongest(account: Option<string>, email: string)
    ensures ActionData('d', account, email) == LongestData(account, email)
  {
    if account.Some? {
      assert ['d'] + ":" + account.value + ":" + email == "d:" + account.value + ":" + email;
    } else {
      assert ['d'] + ":" + email == "d:" + email;
    }
  }

  /** A keyboard is there exactly when its data fits 64 bytes, and then whole. */
  lemma KeyboardsAre(email: string, account: Option<string>, read: bool)
    ensures Utf8Len(LongestData(account, email)) <= 64 ==>
              && HasShape(NotificationKeyboard(email, account, read, false), Collapsed(read))
              && HasShape(NotificationKeyboard(email, account, read, true), Expanded(read))
              && HasShape(UndoKeyboard(email, account), [[(Face.Undo, 'u')]])
    ensures Utf8Len(LongestData(account, email)) > 64 ==>
              && NotificationKeyboard(email, account, read, false) == []
              && NotificationKeyboard(email, account, read, true) == [] && UndoKeyboard(email, account) == []
  {
    SameLongest(account, email);
    SameLength('u', account, email);
    if Utf8Len(LongestData(account, email)) <= 64 {
      CollapsedIs(email, account, read);
      ExpandedIs(email, account, read);
      DataStarts('u', account, email);
      var k := UndoKeyboard(email, account);
      assert |k| == 1 && |k[0]| == 1;
      assert Shape(k)[0] == [(Face.Undo, 'u')];
    }
  }

  lemma CollapsedIs(email: string, account: Option<string>, read: bool)
    requires Fits(email, account)
    ensures HasShape(NotificationKeyboard(email, account, read, false), Collapsed(read))
  {
    DataStarts('a', account, email);
    DataStarts('d', account, email);
    DataStarts(if read then 'E' else 'e', account, email);
    var k := NotificationKeyboard(email, account, read, false);
    assert |k| == 1 && |k[0]| == 3;
    assert Shape(k)[0] == Collapsed(read)[0];
  }

  lemma ExpandedIs(email: string, account: Option<string>, read: bool)
    requires Fits(email, account)
    ensures HasShape(NotificationKeyboard(email, account, read, true), Expanded(read))
  {
    DataStarts('f', account, email);
    DataStarts(if read then 'n' else 'r', account, email);
    DataStarts('a', account, email);
    DataStarts('j', account, email);
    DataStarts('d', account, email);
    DataStarts(if read then 'C' else 'c', account, email);
    var k := NotificationKeyboard(email, account, read, true);
    assert |k| == 3 && |k[0]| == |k[1]| == |k[2]| == 2;
    assert Shape(k)[0] == Expanded(read)[0] && Shape(k)[1] == Expanded(read)[1] && Shape(k)[2] == Expanded(read)[2];
  }

  /** What a tap on a live button leaves on display. */
  ghost predicate Leaves(face: Face, read: bool, o: Outcome, before: Keyboard, after: Keyboard) {
    if !o.shown then after == before else
    match face
    case Expand => HasShape(after, Expanded(read))
    case Less => HasShape(after, Collapsed(read))
    case MarkRead => if o.worked then HasShape(after, Expanded(true)) else after == before
    case Archive => if o.worked then HasShape(after, [[(Face.Undo, 'u')]]) else after == before
    case Spam => if o.worked then HasShape(after, [[(Face.Undo, 'u')]]) else after == before
    case Delete => if o.worked then HasShape(after, [[(Face.Undo, 'u')]]) else after == before
    case Undo => if o.worked then HasShape(after, Collapsed(false)) else after == before
    case FullText => after == before
    case AlreadyRead => after == before
  }

  /** Each button does what its face says: the menu opens and closes and keeps the read
      state it shows; marking as read shows the mail as read; a triage leaves the undo
      button, and an undo the fresh keyboard. The mail is read afterwards exactly when it
      was, or when marking it worked. */
  lemma TapDoes(email: string, account: Option<string>, l: Layout, read: bool, b: Button, o: Outcome)
    requires if account.Some? then ':' !in account.value else ':' !in email
    requires IsButton(Drawn(l, email, account), b)
    ensures var c := Tap(Chat(Drawn(l, email, account), read), b.data, o);
            && Leaves(b.face, ShownRead(l), o, Drawn(l, email, account), c.keyboard)
            && (c.read <==> read || (b.face == MarkRead && o.worked))
  {
    ButtonOfLayout(l, email, account, b);
    TapMovesLayout(l, read, email, account, b, o);
    SameLongest(account, email);
    KeyboardsAre(email, account, ShownRead(l));
    KeyboardsAre(email, account, true);
    KeyboardsAre(email, account, false);
  }

  // ---- The menu of shares ----

  predicate AllFit(shares: seq<Share>) {
    forall i :: 0 <= i < |shares| ==> Utf8Len(ToggleData(shares[i].parent, shares[i].id)) <= 64
  }

  /** Shares whose data fits have one row each, in the order given. */
  lemma {:induction false} SharesInOrder(shares: seq<Share>, enabled: set<string>)
    requires AllFit(shares)
    ensures var rows := SharedKeyboard(shares, enabled);
            && |rows| == |shares|
            && forall i :: 0 <= i < |shares| ==>
                 && (rows[i].0 <==> shares[i].id in enabled) && rows[i].1 == shares[i].name
                 && rows[i].2 == if shares[i].parent.Some? then "s:" + shares[i].parent.value + ":" + shares[i].id
                                 else "s:" + shares[i].id
  {
    if shares != [] {
      assert AllFit(shares[1..]);
      SharesInOrder(shares[1..], enabled);
      forall i | 0 < i < |shares|
        ensures shares[i] == shares[1..][i - 1]
      {
      }
    }
  }
}
