/** What a notification shows of a mail, told from the mail's own fields. */
module NotificationFields {
  import opened Basics
  import opened Picking
  import opened TextLaws
  import opened Markdown
  import opened Notification

  // ---- One field ----

  /** A field that is short enough is shown whole, any other by its first characters and
      an ellipsis. */
  predicate Shortened(field: string, shown: string, limit: nat) {
    shown == if |field| <= limit then field else field[..limit] + "…"
  }

  /** The subject without white space around it; the placeholder when nothing is left. */
  ghost predicate SubjectShown(s: Summary, locale: Locale, shown: string) {
    exists t :: Trimmed(s.subject, t) && if t == "" then shown == locale.noSubject else Shortened(t, shown, 300)
  }

  ghost predicate PreviewShown(s: Summary, shown: string) {
    exists t :: Trimmed(s.preview, t) && Shortened(t, shown, 400)
  }

  /** The sender's name and address, or the address alone. */
  ghost predicate SenderShown(s: Summary, locale: Locale, shown: string, addr: string) {
    match s.fromAddr
    case None => shown == locale.unknownSender && addr == ""
    case Some(raw) =>
      && Shortened(raw, addr, 300)
      && if s.fromName == None || s.fromName.value == "" then shown == addr
         else exists name :: Shortened(s.fromName.value, name, 300) && shown == name + " <" + addr + ">"
  }

  ghost const BLANKS: iset<char> := iset c: char | IsWhitespace(c) || IsControl(c)

  /** The link goes to the shown address without white space and control characters, and
      there is none when nothing is left. */
  ghost predicate LinkShown(addr: string, link: Option<string>) {
    exists kept :: Picked(addr, kept, BLANKS) && link == if kept == "" then None else Some("mailto:" + kept)
  }

  /** A name of white space only is shown as the placeholder. */
  ghost predicate NameShown(a: Attachment, locale: Locale, shown: string) {
    if Trimmed(a.name, "") then shown == locale.emptyAttachmentName else Shortened(a.name, shown, 300)
  }

  /** Name and size of the first five, in order, and how many more there are. */
  ghost predicate AttachmentsShown(s: Summary, locale: Locale, texts: seq<string>, shown: string) {
    && |texts| == (if |s.attachments| < 5 then |s.attachments| else 5)
    && (forall i :: 0 <= i < |texts| ==> ItemShown(s.attachments[i], locale, texts[i]))
    && (|s.attachments| <= 5 ==> shown == Join(texts, ", "))
    && (|s.attachments| > 5 ==> exists number ::
          && Value(number) == |s.attachments| - 5 && number == Digits(|s.attachments| - 5)
          && shown == Join(texts, ", ") + " " + (locale.moreBefore + number + locale.moreAfter))
  }

  ghost predicate ItemShown(a: Attachment, locale: Locale, shown: string) {
    exists name :: NameShown(a, locale, name) && shown == name + " (" + a.size + ")"
  }

  lemma SubjectIs(s: Summary, locale: Locale)
    ensures SubjectShown(s, locale, SubjectText(s, locale))
  {
    TrimIff(s.subject, Trim(s.subject));
    assert Trimmed(s.subject, Trim(s.subject));
  }

  lemma PreviewIs(s: Summary)
    ensures PreviewShown(s, PreviewText(s))
  {
    TrimIff(s.preview, Trim(s.preview));
    assert Trimmed(s.preview, Trim(s.preview));
  }

  lemma {:induction false} MailtoUrlSnoc(addr: string, c: char)
    ensures MailtoUrl(addr + [c]) == if c in BLANKS then MailtoUrl(addr) else MailtoUrl(addr) + [c]
  {
    if addr == "" {
      assert addr + [c] == [c] && [c][1..] == "";
    } else {
      assert (addr + [c])[1..] == addr[1..] + [c];
      MailtoUrlSnoc(addr[1..], c);
    }
  }

  lemma MailtoUrlPicksOneMore(addr: string, c: char)
    requires Picked(addr, MailtoUrl(addr), BLANKS)
    ensures Picked(addr + [c], MailtoUrl(addr + [c]), BLANKS)
  {
    MailtoUrlSnoc(addr, c);
    PickedSnoc(addr, MailtoUrl(addr), BLANKS, c);
  }

  lemma {:induction false} MailtoUrlPicks(addr: string)
    ensures Picked(addr, MailtoUrl(addr), BLANKS)
    decreases |addr|
  {
    if addr == "" {
      PickNone(BLANKS);
    } else {
      var front := addr[..|addr| - 1];
      MailtoUrlPicks(front);
      MailtoUrlPicksOneMore(front, Last(addr));
      assert addr == front + [Last(addr)];
    }
  }

  lemma SenderIs(s: Summary, locale: Locale) returns (addr: string)
    ensures SenderShown(s, locale, Sender(s, locale).0, addr)
    ensures s.fromAddr.Some? ==> LinkShown(addr, Sender(s, locale).1)
    ensures s.fromAddr == None ==> Sender(s, locale).1 == None
  {
    addr := if s.fromAddr.Some? then Truncate(s.fromAddr.value, FIELD_LIMIT) else "";
    if s.fromAddr.Some? {
      MailtoUrlPicks(addr);
      assert Shortened(s.fromAddr.value, addr, 300);
      assert s.fromName.Some? ==> Shortened(s.fromName.value, Truncate(s.fromName.value, FIELD_LIMIT), 300);
    }
  }

  lemma ItemIs(a: Attachment, locale: Locale)
    ensures ItemShown(a, locale, AttachmentName(a, locale) + " (" + a.size + ")")
  {
    TrimIff(a.name, "");
    assert NameShown(a, locale, AttachmentName(a, locale));
  }

  lemma {:induction false} ItemsAre(shown: seq<Attachment>, locale: Locale) returns (texts: seq<string>)
    ensures |texts| == |shown| && SeenAttachments(shown, locale) == Join(texts, ", ")
    ensures forall i :: 0 <= i < |shown| ==> ItemShown(shown[i], locale, texts[i])
  {
    if shown == [] {
      texts := [];
    } else {
      var rest := ItemsAre(shown[1..], locale);
      var first := AttachmentName(shown[0], locale) + " (" + shown[0].size + ")";
      ItemIs(shown[0], locale);
      texts := [first] + rest;
      assert texts[1..] == rest;
      assert |shown| == 1 ==> Join(texts, ", ") == first;
      forall i | 0 <= i < |shown|
        ensures ItemShown(shown[i], locale, texts[i])
      {
        assert i > 0 ==> shown[1..][i - 1] == shown[i] && texts[i] == rest[i - 1];
      }
    }
  }

  lemma AttachmentsAre(s: Summary, locale: Locale) returns (texts: seq<string>)
    ensures AttachmentsShown(s, locale, texts, SeenAttachmentsValue(s, locale))
  {
    texts := ItemsAre(Shown(s), locale);
    assert forall i :: 0 <= i < |texts| ==> Shown(s)[i] == s.attachments[i];
    if |s.attachments| > 5 {
      DigitsDenote(|s.attachments| - 5);
      assert SeenAttachmentsValue(s, locale) ==
          Join(texts, ", ") + " " + (locale.moreBefore + Digits(|s.attachments| - 5) + locale.moreAfter);
    } else {
      assert Join(texts, ", ") + "" == Join(texts, ", ");
    }
  }

  // ---- The whole ----

  /** What of a mail ends up in a notification. */
  datatype Display = Display(
    mailbox: Option<string>, sender: string, link: Option<string>, subject: string, when: string,
    attachments: Option<string>, preview: string)

  ghost predicate MailboxShown(account: Option<string>, shown: Option<string>) {
    if account == None then shown == None else shown.Some? && Shortened(account.value, shown.value, 300)
  }

  ghost predicate IsDisplay(s: Summary, account: Option<string>, locale: Locale, d: Display) {
    && MailboxShown(account, d.mailbox)
    && (exists addr :: SenderShown(s, locale, d.sender, addr) && if s.fromAddr == None then d.link == None
                                                                 else LinkShown(addr, d.link))
    && SubjectShown(s, locale, d.subject) && d.when == s.when
    && (if s.attachments == [] then d.attachments == None
        else d.attachments.Some? && exists texts :: AttachmentsShown(s, locale, texts, d.attachments.value))
    && PreviewShown(s, d.preview)
  }

  /** A line of the head: its caption in bold, then the value. */
  function Line(c: Caption, value: string, link: Option<string>): seq<Styled> {
    Styles(c.prefix, false, false, None) + Styles(c.bold, true, false, None) + Styles(" ", false, false, None)
    + Styles(value, false, false, link) + Styles("\n", false, false, None)
  }

  function OptionalLine(c: Caption, value: Option<string>): seq<Styled> {
    if value == None then [] else Line(c, value.value, None)
  }

  /** The title, the mailbox when it has a label, sender, subject, date, attachments when
      there are any, and the preview's lines as a quote. */
  function Layout(d: Display, l: Locale): seq<Styled> {
    Styles(l.title.prefix, false, false, None) + Styles(l.title.bold, true, false, None)
    + Styles("\n\n", false, false, None)
    + OptionalLine(l.mailbox, d.mailbox) + Line(l.from, d.sender, d.link) + Line(l.subject, d.subject, None)
    + Line(l.received, d.when, None) + OptionalLine(l.attachments, d.attachments)
    + Styles("\n", false, false, None) + Styles(Join(Lines(d.preview), "\n"), false, true, None)
  }

  function DisplayOf(s: Summary, account: Option<string>, locale: Locale): Display {
    var (sender, link) := Sender(s, locale);
    Display(if account == None then None else Some(Truncate(account.value, FIELD_LIMIT)), sender, link,
            SubjectText(s, locale), s.when,
            if s.attachments == [] then None else Some(SeenAttachmentsValue(s, locale)), PreviewText(s))
  }

  lemma DisplayIs(s: Summary, account: Option<string>, locale: Locale)
    ensures IsDisplay(s, account, locale, DisplayOf(s, account, locale))
  {
    var addr := SenderIs(s, locale);
    SubjectIs(s, locale);
    PreviewIs(s);
    if s.attachments != [] {
      var texts := AttachmentsAre(s, locale);
    }
  }

  lemma SeenIsLayout(s: Summary, account: Option<string>, locale: Locale)
    ensures Seen(s, account, locale) == Layout(DisplayOf(s, account, locale), locale)
  {
    var d := DisplayOf(s, account, locale);
    assert SeenMailbox(account, locale) == OptionalLine(locale.mailbox, d.mailbox);
    assert SeenAttachmentsLine(s, locale) == OptionalLine(locale.attachments, d.attachments);
  }

  /** Whatever the mail contains, a MarkdownV2 reader sees the title, its mailbox,
      sender, subject, date and attachments in that order, each field as shortened and
      nothing else of the mail, and the preview's lines as a quote. */
  lemma NotificationShows(s: Summary, account: Option<string>, locale: Locale) returns (d: Display)
    requires SafeLocale(locale)
    ensures IsDisplay(s, account, locale, d)
    ensures ParseMarkdown(NotificationText(s, account, locale)) == Some(Layout(d, locale))
  {
    d := DisplayOf(s, account, locale);
    DisplayIs(s, account, locale);
    PrintingThenReading(s, account, locale);
    SeenIsLayout(s, account, locale);
  }

  /** The mail leaves no choice about what is shown. */
  lemma DisplayIsUnique(s: Summary, account: Option<string>, locale: Locale, d: Display, e: Display)
    requires IsDisplay(s, account, locale, d) && IsDisplay(s, account, locale, e)
    ensures d.mailbox == e.mailbox && d.sender == e.sender && d.subject == e.subject && d.when == e.when
    ensures d.preview == e.preview && d.link == e.link
  {
    var t :| Trimmed(s.subject, t) && if t == "" then d.subject == locale.noSubject else Shortened(t, d.subject, 300);
    var u :| Trimmed(s.subject, u) && if u == "" then e.subject == locale.noSubject else Shortened(u, e.subject, 300);
    TrimIff(s.subject, t);
    TrimIff(s.subject, u);
    var v :| Trimmed(s.preview, v) && Shortened(v, d.preview, 400);
    var w :| Trimmed(s.preview, w) && Shortened(w, e.preview, 400);
    TrimIff(s.preview, v);
    TrimIff(s.preview, w);
    SameLink(s, locale, d, e);
  }

  lemma SameLink(s: Summary, locale: Locale, d: Display, e: Display)
    requires exists addr :: SenderShown(s, locale, d.sender, addr) && if s.fromAddr == None then d.link == None
                                                                      else LinkShown(addr, d.link)
    requires exists addr :: SenderShown(s, locale, e.sender, addr) && if s.fromAddr == None then e.link == None
                                                                      else LinkShown(addr, e.link)
    ensures d.sender == e.sender && d.link == e.link
  {
    var a :| SenderShown(s, locale, d.sender, a) && if s.fromAddr == None then d.link == None else LinkShown(a, d.link);
    var b :| SenderShown(s, locale, e.sender, b) && if s.fromAddr == None then e.link == None else LinkShown(b, e.link);
    if s.fromAddr.Some? {
      var k :| Picked(a, k, BLANKS) && d.link == if k == "" then None else Some("mailto:" + k);
      var l :| Picked(b, l, BLANKS) && e.link == if l == "" then None else Some("mailto:" + l);
      PickedIsUnique(a, k, l, BLANKS);
    }
  }
}
