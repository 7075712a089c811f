/** The text of a mail notification, and what a MarkdownV2 reader sees in it. */
module Notification {
  import opened Basics
  import opened Markdown

  const FIELD_LIMIT: nat := 300
  const PREVIEW_LIMIT: nat := 400
  const MAX_SHOWN: nat := 5
  const TELEGRAM_MAX_MESSAGE_LEN: nat := 4096

  function Truncate(s: string, limit: nat): (r: string)
    ensures |s| <= limit ==> r == s
    ensures |s| > limit ==> |r| == limit + 1 && r[..limit] == s[..limit] && Last(r) == '…'
  {
    if |s| > limit then s[..limit] + "…" else s
  }

  /** A template string of the form `prefix*bold* `, followed by its value. */
  datatype Caption = Caption(prefix: string, bold: string)

  datatype Locale = Locale(
    title: Caption, mailbox: Caption, from: Caption, subject: Caption, received: Caption, attachments: Caption,
    moreBefore: string, moreAfter: string, unknownSender: string, noSubject: string, emptyAttachmentName: string)

  const EN := Locale(
    Caption("📧 ", "New message"), Caption("", "Mailbox:"), Caption("", "From:"), Caption("", "Subject:"),
    Caption("", "Received:"), Caption("📎 ", "Attachments:"),
    "(+", " more)", "(unknown sender)", "(no subject)", "(no name)")

  const FR := Locale(
    Caption("📧 ", "Nouveau message"), Caption("", "Boîte :"), Caption("", "De :"), Caption("", "Objet :"),
    Caption("", "Reçu :"), Caption("📎 ", "Pièces jointes :"),
    "(+", " autres)", "(expéditeur inconnu)", "(sans objet)", "(sans nom)")

  /** `when` and each attachment's `size` are already rendered. */
  datatype Attachment = Attachment(name: string, size: string)

  datatype Summary = Summary(
    subject: string, fromName: Option<string>, fromAddr: Option<string>,
    preview: string, when: string, attachments: seq<Attachment>)

  // ---- Printing ----

  function Captioned(c: Caption, value: string): string {
    c.prefix + Bold(c.bold) + " " + value
  }

  function MailtoUrl(addr: string): string {
    if addr == "" then "" else
    (if IsWhitespace(addr[0]) || IsControl(addr[0]) then "" else [addr[0]]) + MailtoUrl(addr[1..])
  }

  /** How the sender is named, and the address it links to when there is one. */
  function Sender(s: Summary, locale: Locale): (string, Option<string>) {
    match s.fromAddr
    case None => (locale.unknownSender, None)
    case Some(raw) =>
      var addr := Truncate(raw, FIELD_LIMIT);
      var display :=
        if s.fromName.Some? && s.fromName.value != "" then Truncate(s.fromName.value, FIELD_LIMIT) + " <" + addr + ">"
        else addr;
      (display, if MailtoUrl(addr) == "" then None else Some("mailto:" + MailtoUrl(addr)))
  }

  function FromField(s: Summary, locale: Locale): string {
    var (display, url) := Sender(s, locale);
    if url.Some? then Link(display, url.value) else Escape(display)
  }

  function AttachmentName(a: Attachment, locale: Locale): string {
    if Trim(a.name) == "" then locale.emptyAttachmentName else Truncate(a.name, FIELD_LIMIT)
  }

  function AttachmentText(a: Attachment, locale: Locale): string {
    Escape(AttachmentName(a, locale)) + " \\(" + Escape(a.size) + "\\)"
  }

  function AttachmentTexts(shown: seq<Attachment>, locale: Locale): string {
    if shown == [] then "" else
    if |shown| == 1 then AttachmentText(shown[0], locale)
    else AttachmentText(shown[0], locale) + ", " + AttachmentTexts(shown[1..], locale)
  }

  function Shown(s: Summary): (r: seq<Attachment>)
    ensures |r| <= MAX_SHOWN
  {
    if |s.attachments| > MAX_SHOWN then s.attachments[..MAX_SHOWN] else s.attachments
  }

  function More(s: Summary, locale: Locale): string {
    locale.moreBefore + Digits(|s.attachments| - |Shown(s)|) + locale.moreAfter
  }

  function AttachmentsValue(s: Summary, locale: Locale): string {
    AttachmentTexts(Shown(s), locale) + if |s.attachments| > MAX_SHOWN then " " + Escape(More(s, locale)) else ""
  }

  function AttachmentsLine(s: Summary, locale: Locale): string {
    if s.attachments == [] then "" else Captioned(locale.attachments, AttachmentsValue(s, locale)) + "\n"
  }

  function MailboxLine(account: Option<string>, locale: Locale): string {
    if account == None then "" else Captioned(locale.mailbox, Escape(Truncate(account.value, FIELD_LIMIT))) + "\n"
  }

  function SubjectText(s: Summary, locale: Locale): string {
    var subject := Truncate(Trim(s.subject), FIELD_LIMIT);
    if subject == "" then locale.noSubject else subject
  }

  function PreviewText(s: Summary): string {
    Truncate(Trim(s.preview), PREVIEW_LIMIT)
  }

  /** Everything above the preview. */
  function Head(s: Summary, account: Option<string>, locale: Locale): string {
    locale.title.prefix + Bold(locale.title.bold) + "\n\n"
    + MailboxLine(account, locale)
    + (Captioned(locale.from, FromField(s, locale)) + "\n")
    + (Captioned(locale.subject, Escape(SubjectText(s, locale))) + "\n")
    + (Captioned(locale.received, Escape(s.when)) + "\n")
    + AttachmentsLine(s, locale)
  }

  function NotificationText(s: Summary, account: Option<string>, locale: Locale): string {
    Head(s, account, locale) + "\n" + Blockquote(Escape(PreviewText(s)))
  }

  // ---- What the reader should see ----

  function Plain(s: string): seq<Styled> {
    Styles(s, false, false, None)
  }

  function SeenCaption(c: Caption): seq<Styled> {
    Plain(c.prefix) + Styles(c.bold, true, false, None)
  }

  function SeenField(c: Caption, value: seq<Styled>): seq<Styled> {
    SeenCaption(c) + Plain(" ") + value + Plain("\n")
  }

  function SeenSender(s: Summary, locale: Locale): seq<Styled> {
    var (display, url) := Sender(s, locale);
    Styles(display, false, false, url)
  }

  function SeenAttachments(shown: seq<Attachment>, locale: Locale): string {
    if shown == [] then "" else
    var first := AttachmentName(shown[0], locale) + " (" + shown[0].size + ")";
    if |shown| == 1 then first else first + ", " + SeenAttachments(shown[1..], locale)
  }

  function SeenAttachmentsValue(s: Summary, locale: Locale): string {
    SeenAttachments(Shown(s), locale) + if |s.attachments| > MAX_SHOWN then " " + More(s, locale) else ""
  }

  function SeenMailbox(account: Option<string>, locale: Locale): seq<Styled> {
    if account == None then [] else SeenField(locale.mailbox, Plain(Truncate(account.value, FIELD_LIMIT)))
  }

  function SeenAttachmentsLine(s: Summary, locale: Locale): seq<Styled> {
    if s.attachments == [] then [] else SeenField(locale.attachments, Plain(SeenAttachmentsValue(s, locale)))
  }

  function SeenHead(s: Summary, account: Option<string>, locale: Locale): seq<Styled> {
    SeenCaption(locale.title) + Plain("\n\n") + SeenMailbox(account, locale)
    + SeenField(locale.from, SeenSender(s, locale))
    + SeenField(locale.subject, Plain(SubjectText(s, locale)))
    + SeenField(locale.received, Plain(s.when))
    + SeenAttachmentsLine(s, locale)
  }

  function SeenPreview(s: Summary): seq<Styled> {
    Styles(Join(Lines(PreviewText(s)), "\n"), false, true, None)
  }

  /** The template, with every field of the mail as plain text: captions bold, the
      sender linked, the preview's lines quoted. */
  function Seen(s: Summary, account: Option<string>, locale: Locale): seq<Styled> {
    SeenHead(s, account, locale) + Plain("\n") + SeenPreview(s)
  }

  // ---- Printing then reading ----

  predicate SafeCaption(c: Caption) {
    Safe(c.prefix) && Safe(c.bold)
  }

  /** The templates carry no markup of their own beyond the bold captions. */
  predicate SafeLocale(l: Locale) {
    && SafeCaption(l.title) && SafeCaption(l.mailbox) && SafeCaption(l.from)
    && SafeCaption(l.subject) && SafeCaption(l.received) && SafeCaption(l.attachments)
  }

  lemma EnglishIsSafe()
    ensures SafeLocale(EN)
  {
    assert Safe("📧 ") && Safe("📎 ") && Safe("");
    assert Safe("New message") && Safe("Mailbox:");
    assert Safe("From:") && Safe("Subject:");
    assert Safe("Received:") && Safe("Attachments:");
  }

  lemma FrenchHeadersAreSafe()
    ensures SafeCaption(FR.title) && SafeCaption(FR.mailbox) && SafeCaption(FR.from)
  {
    assert Safe("📧 ") && Safe("Nouveau message");
    assert Safe("Boîte :") && Safe("De :");
  }

  lemma FrenchIsSafe()
    ensures SafeLocale(FR)
  {
    FrenchHeadersAreSafe();
    assert Safe("📎 ") && Safe("Pièces jointes :");
    assert Safe("Objet :") && Safe("Reçu :");
  }

  lemma ShowsCaption(c: Caption)
    requires SafeCaption(c)
    ensures Shows(c.prefix + Bold(c.bold), SeenCaption(c))
  {
    ShowsSafe(c.prefix);
    ShowsBold(c.bold);
    ShowsConcat(c.prefix, Plain(c.prefix), Bold(c.bold), Styles(c.bold, true, false, None));
  }

  lemma ShowsField(c: Caption, value: string, seen: seq<Styled>)
    requires SafeCaption(c) && Shows(value, seen)
    ensures Shows(Captioned(c, value) + "\n", SeenField(c, seen))
  {
    ShowsCaption(c);
    ShowsSafe(" ");
    ShowsSafe("\n");
    var head := c.prefix + Bold(c.bold);
    ShowsConcat(head, SeenCaption(c), " ", Plain(" "));
    ShowsConcat(head + " ", SeenCaption(c) + Plain(" "), value, seen);
    ShowsConcat(head + " " + value, SeenCaption(c) + Plain(" ") + seen, "\n", Plain("\n"));
  }

  lemma ShowsNothing()
    ensures Shows("", [])
  {
    forall r: Reader | Normal(r)
      ensures Read(r, "").out == r.out + []
    {
    }
  }

  lemma ShowsSender(s: Summary, locale: Locale)
    ensures Shows(FromField(s, locale), SeenSender(s, locale))
  {
    var (display, url) := Sender(s, locale);
    if url.Some? {
      ShowsLink(display, url.value);
    } else {
      ShowsEscaped(display);
    }
  }

  lemma EscapedParens()
    ensures Escape(" (") == " \\(" && Escape(")") == "\\)"
  {
    assert Escape(" (") == EscapeChar(' ') + Escape("(") by {
      assert " ("[1..] == "(";
    }
    assert Escape("(") == EscapeChar('(') + "" && Escape(")") == EscapeChar(')') + "";
  }

  lemma EscapedAttachment(a: Attachment, locale: Locale)
    ensures AttachmentText(a, locale) == Escape(AttachmentName(a, locale) + " (" + a.size + ")")
  {
    var name := AttachmentName(a, locale);
    EscapeConcat(name + " (" + a.size, ")");
    EscapeConcat(name + " (", a.size);
    EscapeConcat(name, " (");
    EscapedParens();
  }

  lemma ShowsAttachment(a: Attachment, locale: Locale)
    ensures Shows(AttachmentText(a, locale), Plain(AttachmentName(a, locale) + " (" + a.size + ")"))
  {
    EscapedAttachment(a, locale);
    ShowsEscaped(AttachmentName(a, locale) + " (" + a.size + ")");
  }

  lemma PlainConcat(a: string, b: string)
    ensures Plain(a + b) == Plain(a) + Plain(b)
  {
  }

  lemma ShowsPlainPair(a: string, va: string, b: string, vb: string)
    requires Shows(a, Plain(va)) && Shows(b, Plain(vb))
    ensures Shows(a + b, Plain(va + vb))
  {
    ShowsConcat(a, Plain(va), b, Plain(vb));
    PlainConcat(va, vb);
  }

  lemma ShowsSeparated(a: string, va: string, sep: string, b: string, vb: string)
    requires Safe(sep) && Shows(a, Plain(va)) && Shows(b, Plain(vb))
    ensures Shows(a + sep + b, Plain(va + sep + vb))
  {
    ShowsSafe(sep);
    ShowsPlainPair(a, va, sep, sep);
    ShowsPlainPair(a + sep, va + sep, b, vb);
  }

  lemma {:induction false} ShowsAttachments(shown: seq<Attachment>, locale: Locale)
    ensures Shows(AttachmentTexts(shown, locale), Plain(SeenAttachments(shown, locale)))
  {
    if shown == [] {
      ShowsSafe("");
    } else if |shown| == 1 {
      ShowsAttachment(shown[0], locale);
    } else {
      ShowsAttachments(shown[1..], locale);
      ShowsAttachment(shown[0], locale);
      assert Safe(", ");
      ShowsSeparated(AttachmentText(shown[0], locale), AttachmentName(shown[0], locale) + " (" + shown[0].size + ")",
                     ", ", AttachmentTexts(shown[1..], locale), SeenAttachments(shown[1..], locale));
    }
  }

  lemma ShowsAttachmentsValue(s: Summary, locale: Locale)
    ensures Shows(AttachmentsValue(s, locale), Plain(SeenAttachmentsValue(s, locale)))
  {
    var shown, seen := AttachmentTexts(Shown(s), locale), SeenAttachments(Shown(s), locale);
    ShowsAttachments(Shown(s), locale);
    if |s.attachments| > MAX_SHOWN {
      var more := More(s, locale);
      ShowsEscaped(more);
      assert Safe(" ");
      ShowsSeparated(shown, seen, " ", Escape(more), more);
      assert shown + (" " + Escape(more)) == shown + " " + Escape(more);
      assert seen + (" " + more) == seen + " " + more;
    } else {
      assert shown + "" == shown && seen + "" == seen;
    }
  }

  lemma ShowsMailbox(account: Option<string>, locale: Locale)
    requires SafeLocale(locale)
    ensures Shows(MailboxLine(account, locale), SeenMailbox(account, locale))
  {
    if account == None {
      ShowsNothing();
    } else {
      var name := Truncate(account.value, FIELD_LIMIT);
      ShowsEscaped(name);
      ShowsField(locale.mailbox, Escape(name), Plain(name));
    }
  }

  lemma ShowsAttachmentsLine(s: Summary, locale: Locale)
    requires SafeLocale(locale)
    ensures Shows(AttachmentsLine(s, locale), SeenAttachmentsLine(s, locale))
  {
    if s.attachments == [] {
      ShowsNothing();
    } else {
      ShowsAttachmentsValue(s, locale);
      ShowsField(locale.attachments, AttachmentsValue(s, locale), Plain(SeenAttachmentsValue(s, locale)));
    }
  }

  lemma ShowsHead(s: Summary, account: Option<string>, locale: Locale)
    requires SafeLocale(locale)
    ensures Shows(Head(s, account, locale), SeenHead(s, account, locale))
  {
    var t := locale.title.prefix + Bold(locale.title.bold);
    var vt := SeenCaption(locale.title);
    ShowsCaption(locale.title);
    ShowsSafe("\n\n");
    ShowsConcat(t, vt, "\n\n", Plain("\n\n"));
    ShowsMailbox(account, locale);
    var h1, v1 := t + "\n\n", vt + Plain("\n\n");
    ShowsConcat(h1, v1, MailboxLine(account, locale), SeenMailbox(account, locale));
    var h2, v2 := h1 + MailboxLine(account, locale), v1 + SeenMailbox(account, locale);
    ShowsHeadFields(s, locale, h2, v2);
  }

  lemma ShowsHeadFields(s: Summary, locale: Locale, h: string, v: seq<Styled>)
    requires SafeLocale(locale) && Shows(h, v)
    ensures Shows(h + (Captioned(locale.from, FromField(s, locale)) + "\n")
                    + (Captioned(locale.subject, Escape(SubjectText(s, locale))) + "\n")
                    + (Captioned(locale.received, Escape(s.when)) + "\n") + AttachmentsLine(s, locale),
                  v + SeenField(locale.from, SeenSender(s, locale)) +
                      SeenField(locale.subject, Plain(SubjectText(s, locale)))
                    + SeenField(locale.received, Plain(s.when)) + SeenAttachmentsLine(s, locale))
  {
    var from, vfrom := Captioned(locale.from, FromField(s, locale)) + "\n",
        SeenField(locale.from, SeenSender(s, locale));
    var subject, vsubject := Captioned(locale.subject, Escape(SubjectText(s, locale))) + "\n",
        SeenField(locale.subject, Plain(SubjectText(s, locale)));
    var received, vreceived := Captioned(locale.received, Escape(s.when)) + "\n",
        SeenField(locale.received, Plain(s.when));
    ShowsSender(s, locale);
    ShowsField(locale.from, FromField(s, locale), SeenSender(s, locale));
    ShowsEscaped(SubjectText(s, locale));
    ShowsField(locale.subject, Escape(SubjectText(s, locale)), Plain(SubjectText(s, locale)));
    ShowsEscaped(s.when);
    ShowsField(locale.received, Escape(s.when), Plain(s.when));
    ShowsAttachmentsLine(s, locale);
    ShowsConcat(h, v, from, vfrom);
    ShowsConcat(h + from, v + vfrom, subject, vsubject);
    ShowsConcat(h + from + subject, v + vfrom + vsubject, received, vreceived);
    ShowsConcat(h + from + subject + received, v + vfrom + vsubject + vreceived, AttachmentsLine(s, locale),
        SeenAttachmentsLine(s, locale));
  }

  lemma HeadThenQuote(head: string, seen: seq<Styled>, preview: string)
    requires Shows(head, seen)
    ensures ParseMarkdown(head + "\n" + Blockquote(Escape(preview))) ==
            Some(seen + Plain("\n") + Styles(Join(Lines(preview), "\n"), false, true, None))
  {
    ShowsAt(START, head, seen);
    ReadConcat(START, head + "\n", Blockquote(Escape(preview)));
    ReadConcat(START, head, "\n");
    var r := Read(START, head);
    assert r.out == seen;
    ReadOne(r, '\n');
    var r1 := r.(out := r.out + [Styled('\n', false, false, None)], lineStart := true);
    assert ReadChar(r, '\n') == r1 && r1.out == seen + Plain("\n");
    ReadBlockquote(r1, preview);
  }

  /** Whatever the mail contains, Telegram reads the notification as the template's
      own bold captions, sender link and preview quote, with every field of the
      mail recovered as plain text. */
  lemma PrintingThenReading(s: Summary, account: Option<string>, locale: Locale)
    requires SafeLocale(locale)
    ensures ParseMarkdown(NotificationText(s, account, locale)) == Some(Seen(s, account, locale))
  {
    ShowsHead(s, account, locale);
    HeadThenQuote(Head(s, account, locale), SeenHead(s, account, locale), PreviewText(s));
  }

  // ---- Length ----

  predicate ShortCaption(c: Caption) {
    |c.prefix| + |c.bold| <= 32
  }

  /** Bounds on the opaque strings: captions, the rendered date and sizes. */
  predicate ShortTexts(s: Summary, l: Locale) {
    && ShortCaption(l.title) && ShortCaption(l.mailbox) && ShortCaption(l.from)
    && ShortCaption(l.subject) && ShortCaption(l.received) && ShortCaption(l.attachments)
    && |l.unknownSender| <= 32 && |l.noSubject| <= 32 && |l.emptyAttachmentName| <= 32
    && |More(s, l)| <= 64 && |s.when| <= 64
    && forall i :: 0 <= i < |s.attachments| ==> |s.attachments[i].size| <= 32
  }

  lemma {:induction false} AttachmentsAreShort(shown: seq<Attachment>, locale: Locale)
    requires |locale.emptyAttachmentName| <= 32
    requires forall i :: 0 <= i < |shown| ==> |shown[i].size| <= 32
    ensures |SeenAttachments(shown, locale)| <= 338 * |shown|
  {
    if |shown| > 1 {
      AttachmentsAreShort(shown[1..], locale);
    }
  }

  lemma {:induction false} LinesAreNotLonger(s: string)
    ensures |Join(Lines(s), "\n")| <= |s|
  {
    if s != "" {
      var k := IndexOf(s, '\n');
      if k < |s| {
        LinesAreNotLonger(s[k + 1..]);
        assert Lines(s)[1..] == Lines(s[k + 1..]);
      }
    }
  }

  lemma FieldLength(c: Caption, value: seq<Styled>)
    ensures |SeenField(c, value)| == |c.prefix| + |c.bold| + |value| + 2
  {
  }

  lemma SenderLength(s: Summary, locale: Locale)
    requires |locale.unknownSender| <= 32
    ensures |SeenSender(s, locale)| <= 2 * FIELD_LIMIT + 5
  {
  }

  lemma HeadLength(s: Summary, account: Option<string>, locale: Locale)
    requires ShortTexts(s, locale)
    ensures |SeenHead(s, account, locale)| <= 3230
  {
    AttachmentsAreShort(Shown(s), locale);
    SenderLength(s, locale);
    FieldLength(locale.from, SeenSender(s, locale));
    FieldLength(locale.subject, Plain(SubjectText(s, locale)));
    FieldLength(locale.received, Plain(s.when));
    FieldLength(locale.attachments, Plain(SeenAttachmentsValue(s, locale)));
    if account.Some? {
      FieldLength(locale.mailbox, Plain(Truncate(account.value, FIELD_LIMIT)));
    }
  }

  /** For any mail, the visible text stays under Telegram's limit, counted in code points. */
  lemma VisibleTextFits(s: Summary, account: Option<string>, locale: Locale)
    requires ShortTexts(s, locale)
    ensures |Seen(s, account, locale)| < 4096
  {
    HeadLength(s, account, locale);
    LinesAreNotLonger(PreviewText(s));
  }

  lemma ShippedLocalesAreShort(s: Summary)
    requires |Digits(|s.attachments| - |Shown(s)|)| <= 32 && |s.when| <= 64
    requires forall i :: 0 <= i < |s.attachments| ==> |s.attachments[i].size| <= 32
    ensures ShortTexts(s, EN) && ShortTexts(s, FR)
  {
  }

  /** So in both shipped languages, for any mail with fewer than 10^32 attachments: the
      notification reads as its template with the fields as plain text, and fits. */
  lemma ShippedNotificationsReadAndFit(s: Summary, account: Option<string>, locale: Locale)
    requires locale == EN || locale == FR
    requires |Digits(|s.attachments| - |Shown(s)|)| <= 32 && |s.when| <= 64
    requires forall i :: 0 <= i < |s.attachments| ==> |s.attachments[i].size| <= 32
    ensures ParseMarkdown(NotificationText(s, account, locale)) == Some(Seen(s, account, locale))
    ensures |Seen(s, account, locale)| < 4096
  {
    EnglishIsSafe();
    FrenchIsSafe();
    ShippedLocalesAreShort(s);
    PrintingThenReading(s, account, locale);
    VisibleTextFits(s, account, locale);
  }
}
