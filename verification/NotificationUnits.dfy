/** How long a notification is as Telegram counts it, in UTF-16 units. The field
    limits count characters, and those outside the basic plane need two units. */
module NotificationUnits {
  import opened Basics
  import opened Greedy
  import opened Chunking
  import opened Markdown
  import opened Notification

  function Width(x: Styled): nat {
    CharUnits(x.c)
  }

  function VisibleUnits(seen: seq<Styled>): nat {
    Sum(seen, Width)
  }

  /** The visible characters outside the basic plane. */
  function Wide(seen: seq<Styled>): nat {
    if seen == [] then 0 else (if seen[0].c as int >= 0x1_0000 then 1 else 0) + Wide(seen[1..])
  }

  lemma {:induction false} UnitsAndWide(seen: seq<Styled>)
    ensures VisibleUnits(seen) == |seen| + Wide(seen)
  {
    if seen != [] {
      UnitsAndWide(seen[1..]);
    }
  }

  lemma LengthOfSeen(s: Summary, account: Option<string>, locale: Locale)
    requires ShortTexts(s, locale)
    ensures |Seen(s, account, locale)| <= TELEGRAM_MAX_MESSAGE_LEN - 464
  {
    HeadLength(s, account, locale);
    LinesAreNotLonger(PreviewText(s));
  }

  ghost predicate BasicSeen(seen: seq<Styled>) {
    forall i :: 0 <= i < |seen| ==> seen[i].c as int < 0x1_0000
  }

  lemma {:induction false} WideConcat(a: seq<Styled>, b: seq<Styled>)
    ensures Wide(a + b) == Wide(a) + Wide(b)
  {
    if a == [] {
      assert a + b == b;
    } else {
      assert (a + b)[1..] == a[1..] + b;
      WideConcat(a[1..], b);
    }
  }

  lemma {:induction false} WideAtMost(seen: seq<Styled>)
    ensures Wide(seen) <= |seen|
    ensures BasicSeen(seen) ==> Wide(seen) == 0
  {
    if seen != [] {
      WideAtMost(seen[1..]);
    }
  }

  lemma WideInSeen(s: Summary, account: Option<string>, locale: Locale)
    ensures Wide(Seen(s, account, locale)) ==
            Wide(SeenCaption(locale.title) + Plain("\n\n")) + Wide(SeenMailbox(account, locale))
            + Wide(SeenField(locale.from, SeenSender(s, locale)))
            + Wide(SeenField(locale.subject, Plain(SubjectText(s, locale))))
            + Wide(SeenField(locale.received, Plain(s.when)))
            + Wide(SeenAttachmentsLine(s, locale)) + Wide(Plain("\n") + SeenPreview(s))
  {
    var t, m := SeenCaption(locale.title) + Plain("\n\n"), SeenMailbox(account, locale);
    var f := SeenField(locale.from, SeenSender(s, locale));
    var j := SeenField(locale.subject, Plain(SubjectText(s, locale)));
    var w, a := SeenField(locale.received, Plain(s.when)), SeenAttachmentsLine(s, locale);
    var p := Plain("\n") + SeenPreview(s);
    WideConcat(t, m);
    WideConcat(t + m, f);
    WideConcat(t + m + f, j);
    WideConcat(t + m + f + j, w);
    WideConcat(t + m + f + j + w, a);
    WideConcat(SeenHead(s, account, locale), p);
    assert Seen(s, account, locale) == SeenHead(s, account, locale) + p;
  }

  // ---- Exactly which mails fit ----

  /** The characters of a field outside the basic plane. */
  function WideChars(s: string): nat {
    if s == "" then 0 else (if s[0] as int >= 0x1_0000 then 1 else 0) + WideChars(s[1..])
  }

  lemma {:induction false} WideCharsConcat(a: string, b: string)
    ensures WideChars(a + b) == WideChars(a) + WideChars(b)
  {
    if a == "" {
      assert a + b == b;
    } else {
      assert (a + b)[1..] == a[1..] + b;
      WideCharsConcat(a[1..], b);
    }
  }

  lemma {:induction false} WideOfStyles(s: string, bold: bool, quote: bool, link: Option<string>)
    ensures Wide(Styles(s, bold, quote, link)) == WideChars(s)
  {
    if s != "" {
      WideOfStyles(s[1..], bold, quote, link);
      assert Styles(s, bold, quote, link)[1..] == Styles(s[1..], bold, quote, link);
    }
  }

  lemma WideAroundBreak(a: string, b: string)
    ensures WideChars(a + "\n" + b) == WideChars(a) + WideChars(b)
  {
    WideCharsConcat(a + "\n", b);
    WideCharsConcat(a, "\n");
    assert WideChars("\n") == 0;
  }

  lemma WideWithoutCr(line: string)
    ensures WideChars(StripCr(line)) == WideChars(line)
  {
    if StripCr(line) != line {
      assert line == StripCr(line) + "\r" && WideChars("\r") == 0;
      WideCharsConcat(StripCr(line), "\r");
    }
  }

  lemma WideOfJoin(a: string, rest: seq<string>)
    ensures WideChars(Join([a] + rest, "\n")) == WideChars(a) + WideChars(Join(rest, "\n"))
  {
    assert ([a] + rest)[1..] == rest;
    WideAroundBreak(a, Join(rest, "\n"));
  }

  /** Line ends are in the basic plane. */
  lemma {:induction false} WideCharsOfLines(s: string)
    ensures WideChars(Join(Lines(s), "\n")) == WideChars(s)
  {
    var k := IndexOf(s, '\n');
    if k < |s| {
      var head, tail := s[..k], s[k + 1..];
      WideCharsOfLines(tail);
      assert s == head + "\n" + tail;
      WideAroundBreak(head, tail);
      WideWithoutCr(head);
      WideOfJoin(StripCr(head), Lines(tail));
    } else if s != "" {
      assert Lines(s) == [s];
    }
  }

  /** What the fields of a mail, as truncated, bring of wide characters. */
  function WideInSender(s: Summary, locale: Locale): nat {
    match s.fromAddr
    case None => WideChars(locale.unknownSender)
    case Some(addr) =>
      WideChars(Truncate(addr, FIELD_LIMIT)) +
      if s.fromName.Some? && s.fromName.value != "" then WideChars(Truncate(s.fromName.value, FIELD_LIMIT)) else 0
  }

  function WideInAttachments(shown: seq<Attachment>, locale: Locale): nat {
    if shown == [] then 0 else
      WideChars(AttachmentName(shown[0], locale)) + WideChars(shown[0].size) + WideInAttachments(shown[1..], locale)
  }

  function WideInMail(s: Summary, account: Option<string>, locale: Locale): nat {
    (if account.Some? then WideChars(Truncate(account.value, FIELD_LIMIT)) else 0)
    + WideInSender(s, locale) + WideChars(SubjectText(s, locale)) + WideChars(s.when)
    + WideInAttachments(Shown(s), locale) + WideChars(PreviewText(s))
  }

  function WideInCaption(c: Caption): nat {
    WideChars(c.prefix) + WideChars(c.bold)
  }

  function WideInMore(s: Summary, locale: Locale): nat {
    if |s.attachments| > MAX_SHOWN then WideChars(More(s, locale)) else 0
  }

  /** What the template itself brings. */
  function WideInTemplate(s: Summary, account: Option<string>, locale: Locale): nat {
    WideInCaption(locale.title) + (if account.Some? then WideInCaption(locale.mailbox) else 0)
    + WideInCaption(locale.from) + WideInCaption(locale.subject) + WideInCaption(locale.received)
    + (if s.attachments != [] then WideInCaption(locale.attachments) else 0) + WideInMore(s, locale)
  }

  lemma WideOfCaption(c: Caption)
    ensures Wide(SeenCaption(c)) == WideInCaption(c)
  {
    WideConcat(Plain(c.prefix), Styles(c.bold, true, false, None));
    WideOfStyles(c.prefix, false, false, None);
    WideOfStyles(c.bold, true, false, None);
  }

  lemma WideOfField(c: Caption, value: seq<Styled>)
    ensures Wide(SeenField(c, value)) == WideInCaption(c) + Wide(value)
  {
    WideOfCaption(c);
    WideConcat(SeenCaption(c), Plain(" "));
    WideConcat(SeenCaption(c) + Plain(" "), value);
    WideConcat(SeenCaption(c) + Plain(" ") + value, Plain("\n"));
    WideAtMost(Plain(" "));
    WideAtMost(Plain("\n"));
  }

  lemma WideOfTextField(c: Caption, value: string)
    ensures Wide(SeenField(c, Plain(value))) == WideInCaption(c) + WideChars(value)
  {
    WideOfField(c, Plain(value));
    WideOfStyles(value, false, false, None);
  }

  lemma WideOfSender(s: Summary, locale: Locale)
    ensures Wide(SeenField(locale.from, SeenSender(s, locale))) == WideInCaption(locale.from) + WideInSender(s, locale)
  {
    var (display, url) := Sender(s, locale);
    WideOfField(locale.from, SeenSender(s, locale));
    WideOfStyles(display, false, false, url);
    if s.fromAddr.Some? && s.fromName.Some? && s.fromName.value != "" {
      var name, addr := Truncate(s.fromName.value, FIELD_LIMIT), Truncate(s.fromAddr.value, FIELD_LIMIT);
      WideCharsConcat(name + " <" + addr, ">");
      WideCharsConcat(name + " <", addr);
      WideCharsConcat(name, " <");
      NarrowPunctuation();
    }
  }

  lemma NarrowPunctuation()
    ensures WideChars(" <") == WideChars(">") == WideChars(" (") == WideChars(")") == WideChars(", ") == 0
    ensures WideChars(" ") == 0
  {
    assert " <"[1..] == "<" && " ("[1..] == "(" && ", "[1..] == " ";
  }

  lemma {:induction false} WideOfAttachments(shown: seq<Attachment>, locale: Locale)
    ensures WideChars(SeenAttachments(shown, locale)) == WideInAttachments(shown, locale)
  {
    if shown != [] {
      var name, size := AttachmentName(shown[0], locale), shown[0].size;
      var first := name + " (" + size + ")";
      WideCharsConcat(name + " (" + size, ")");
      WideCharsConcat(name + " (", size);
      WideCharsConcat(name, " (");
      NarrowPunctuation();
      WideOfAttachments(shown[1..], locale);
      WideCharsConcat(first + ", ", SeenAttachments(shown[1..], locale));
      WideCharsConcat(first, ", ");
      assert |shown| == 1 ==> shown[1..] == [];
    }
  }

  lemma WideOfAttachmentsLine(s: Summary, locale: Locale)
    ensures Wide(SeenAttachmentsLine(s, locale)) ==
            if s.attachments == [] then 0 else
              WideInCaption(locale.attachments) + WideInAttachments(Shown(s), locale) + WideInMore(s, locale)
  {
    var shown := SeenAttachments(Shown(s), locale);
    WideOfAttachments(Shown(s), locale);
    WideOfTextField(locale.attachments, SeenAttachmentsValue(s, locale));
    WideCharsConcat(shown, " " + More(s, locale));
    WideCharsConcat(" ", More(s, locale));
    NarrowPunctuation();
    assert shown + "" == shown;
  }

  lemma WideOfPreview(s: Summary)
    ensures Wide(Plain("\n") + SeenPreview(s)) == WideChars(PreviewText(s))
  {
    WideConcat(Plain("\n"), SeenPreview(s));
    WideOfStyles(Join(Lines(PreviewText(s)), "\n"), false, true, None);
    WideCharsOfLines(PreviewText(s));
    WideAtMost(Plain("\n"));
  }

  lemma WideOfTitle(locale: Locale)
    ensures Wide(SeenCaption(locale.title) + Plain("\n\n")) == WideInCaption(locale.title)
  {
    WideConcat(SeenCaption(locale.title), Plain("\n\n"));
    WideOfCaption(locale.title);
    WideAtMost(Plain("\n\n"));
  }

  lemma WideOfSeen(s: Summary, account: Option<string>, locale: Locale)
    ensures Wide(Seen(s, account, locale)) == WideInMail(s, account, locale) + WideInTemplate(s, account, locale)
  {
    WideInSeen(s, account, locale);
    WideOfTitle(locale);
    if account.Some? {
      WideOfTextField(locale.mailbox, Truncate(account.value, FIELD_LIMIT));
    }
    WideOfSender(s, locale);
    WideOfTextField(locale.subject, SubjectText(s, locale));
    WideOfTextField(locale.received, s.when);
    WideOfAttachmentsLine(s, locale);
    WideOfPreview(s);
  }

  /** A notification fits exactly when the characters outside the basic plane that the
      truncated fields of the mail and the template bring are no more than the room that
      the visible text leaves; 464 of them always fit. */
  lemma UnitsFitIff(s: Summary, account: Option<string>, locale: Locale)
    requires ShortTexts(s, locale)
    ensures var seen := Seen(s, account, locale);
            var wide := WideInMail(s, account, locale) + WideInTemplate(s, account, locale);
            && (VisibleUnits(seen) <= TELEGRAM_MAX_MESSAGE_LEN <==> wide <= TELEGRAM_MAX_MESSAGE_LEN - |seen|)
            && (wide <= 464 ==> VisibleUnits(seen) <= TELEGRAM_MAX_MESSAGE_LEN)
  {
    UnitsAndWide(Seen(s, account, locale));
    WideOfSeen(s, account, locale);
    LengthOfSeen(s, account, locale);
  }

  // ---- Mails within the basic plane ----

  predicate Basic(s: string) {
    forall i :: 0 <= i < |s| ==> s[i] as int < 0x1_0000
  }

  predicate BasicCaption(c: Caption) {
    Basic(c.prefix) && Basic(c.bold)
  }

  /** The icons before the title and the attachments may be wide. */
  predicate BasicLocale(l: Locale) {
    && Basic(l.title.bold) && BasicCaption(l.mailbox) && BasicCaption(l.from) && BasicCaption(l.subject)
    && BasicCaption(l.received) && Basic(l.attachments.bold) && Basic(l.moreBefore) && Basic(l.moreAfter)
    && Basic(l.unknownSender) && Basic(l.noSubject) && Basic(l.emptyAttachmentName)
  }

  predicate BasicMail(s: Summary, account: Option<string>) {
    && Basic(s.subject) && Basic(s.preview) && Basic(s.when) && (account.Some? ==> Basic(account.value))
    && (s.fromName.Some? ==> Basic(s.fromName.value)) && (s.fromAddr.Some? ==> Basic(s.fromAddr.value))
    && forall i :: 0 <= i < |s.attachments| ==> Basic(s.attachments[i].name) && Basic(s.attachments[i].size)
  }

  lemma {:induction false} BasicHasNoWide(s: string)
    ensures WideChars(s) <= |s|
    ensures Basic(s) ==> WideChars(s) == 0
  {
    if s != "" {
      BasicHasNoWide(s[1..]);
    }
  }

  lemma {:induction false} TrimIsBasic(s: string)
    requires Basic(s)
    ensures Basic(Trim(s))
    decreases |s|
  {
    if s != "" {
      if IsWhitespace(s[0]) {
        TrimIsBasic(s[1..]);
      } else if IsWhitespace(Last(s)) {
        TrimIsBasic(s[..|s| - 1]);
      }
    }
  }

  lemma {:induction false} BasicAttachments(shown: seq<Attachment>, locale: Locale)
    requires Basic(locale.emptyAttachmentName)
    requires forall i :: 0 <= i < |shown| ==> Basic(shown[i].name) && Basic(shown[i].size)
    ensures WideInAttachments(shown, locale) == 0
  {
    if shown != [] {
      BasicHasNoWide(AttachmentName(shown[0], locale));
      BasicHasNoWide(shown[0].size);
      BasicAttachments(shown[1..], locale);
    }
  }

  lemma BasicSender(s: Summary, account: Option<string>, locale: Locale)
    requires BasicLocale(locale) && BasicMail(s, account)
    ensures WideInSender(s, locale) == 0
  {
    BasicHasNoWide(locale.unknownSender);
    if s.fromAddr.Some? {
      BasicHasNoWide(Truncate(s.fromAddr.value, FIELD_LIMIT));
    }
    if s.fromName.Some? {
      BasicHasNoWide(Truncate(s.fromName.value, FIELD_LIMIT));
    }
  }

  lemma BasicFields(s: Summary, account: Option<string>, locale: Locale)
    requires BasicLocale(locale) && BasicMail(s, account)
    ensures WideInMail(s, account, locale) == 0
  {
    if account.Some? {
      BasicHasNoWide(Truncate(account.value, FIELD_LIMIT));
    }
    BasicSender(s, account, locale);
    TrimIsBasic(s.subject);
    BasicHasNoWide(SubjectText(s, locale));
    BasicHasNoWide(s.when);
    BasicAttachments(Shown(s), locale);
    TrimIsBasic(s.preview);
    BasicHasNoWide(PreviewText(s));
  }

  lemma BasicTemplate(s: Summary, account: Option<string>, locale: Locale)
    requires BasicLocale(locale)
    ensures WideInTemplate(s, account, locale) <= |locale.title.prefix| + |locale.attachments.prefix|
  {
    CaptionHasNoWide(locale.mailbox);
    CaptionHasNoWide(locale.from);
    CaptionHasNoWide(locale.subject);
    CaptionHasNoWide(locale.received);
    BasicHasNoWide(locale.title.prefix);
    BasicHasNoWide(locale.title.bold);
    BasicHasNoWide(locale.attachments.prefix);
    BasicHasNoWide(locale.attachments.bold);
    assert Basic(More(s, locale));
    BasicHasNoWide(More(s, locale));
  }

  lemma CaptionHasNoWide(c: Caption)
    requires BasicCaption(c)
    ensures WideInCaption(c) == 0
  {
    BasicHasNoWide(c.prefix);
    BasicHasNoWide(c.bold);
  }

  /** A mail whose fields stay within the basic plane fits, as Telegram counts. */
  lemma BasicMailFits(s: Summary, account: Option<string>, locale: Locale)
    requires ShortTexts(s, locale) && BasicLocale(locale) && BasicMail(s, account)
    ensures VisibleUnits(Seen(s, account, locale)) <= TELEGRAM_MAX_MESSAGE_LEN
  {
    BasicFields(s, account, locale);
    BasicTemplate(s, account, locale);
    UnitsFitIff(s, account, locale);
  }

  lemma EnglishTextsAreBasic()
    ensures Basic(EN.moreBefore) && Basic(EN.moreAfter)
    ensures Basic(EN.unknownSender) && Basic(EN.noSubject) && Basic(EN.emptyAttachmentName)
  {
    assert Basic("(+") && Basic(" more)") && Basic("(unknown sender)") && Basic("(no subject)") && Basic("(no name)");
  }

  lemma EnglishIsBasic()
    ensures BasicLocale(EN)
  {
    EnglishTextsAreBasic();
    assert Basic("New message") && Basic("Mailbox:") && Basic("From:") && Basic("Subject:");
    assert Basic("Received:") && Basic("Attachments:") && Basic("");
  }

  lemma FrenchTextsAreBasic()
    ensures Basic(FR.moreBefore) && Basic(FR.moreAfter)
    ensures Basic(FR.unknownSender) && Basic(FR.noSubject) && Basic(FR.emptyAttachmentName)
  {
    assert Basic("(+") && Basic(" autres)") && Basic("(expéditeur inconnu)") && Basic("(sans objet)");
    assert Basic("(sans nom)");
  }

  lemma FrenchIsBasic()
    ensures BasicLocale(FR)
  {
    FrenchTextsAreBasic();
    assert Basic("Nouveau message") && Basic("Boîte :") && Basic("De :") && Basic("Objet :");
    assert Basic("Reçu :") && Basic("Pièces jointes :") && Basic("");
  }

  /** So it is in both shipped languages. */
  lemma ShippedBasicMailFits(s: Summary, account: Option<string>, locale: Locale)
    requires locale == EN || locale == FR
    requires |Digits(|s.attachments| - |Shown(s)|)| <= 32 && |s.when| <= 64
    requires forall i :: 0 <= i < |s.attachments| ==> |s.attachments[i].size| <= 32
    requires BasicMail(s, account)
    ensures VisibleUnits(Seen(s, account, locale)) <= TELEGRAM_MAX_MESSAGE_LEN
  {
    EnglishIsBasic();
    FrenchIsBasic();
    ShippedLocalesAreShort(s);
    BasicMailFits(s, account, locale);
  }

  // ---- A mail that does not fit ----

  predicate AllWide(s: string) {
    |s| >= FIELD_LIMIT && forall i :: 0 <= i < |s| ==> s[i] as int >= 0x1_0000
  }

  /** Five attachments, the sender's name and the address, each 300 or more characters
      outside the basic plane. */
  predicate WideMail(s: Summary) {
    && s.fromName.Some? && AllWide(s.fromName.value) && s.fromAddr.Some? && AllWide(s.fromAddr.value)
    && |s.attachments| == MAX_SHOWN && forall i :: 0 <= i < MAX_SHOWN ==> AllWide(s.attachments[i].name)
  }

  lemma {:induction false} AllWideCounts(seen: seq<Styled>)
    requires forall i :: 0 <= i < |seen| ==> seen[i].c as int >= 0x1_0000
    ensures VisibleUnits(seen) == 2 * |seen|
  {
    if seen != [] {
      AllWideCounts(seen[1..]);
    }
  }

  lemma PartUnits(pre: seq<Styled>, part: seq<Styled>, post: seq<Styled>)
    ensures VisibleUnits(pre + part + post) == VisibleUnits(pre) + VisibleUnits(part) + VisibleUnits(post)
  {
    SumConcat(pre + part, post, Width);
    SumConcat(pre, part, Width);
  }

  lemma WideField(field: string, link: Option<string>)
    requires AllWide(field)
    ensures VisibleUnits(Styles(Truncate(field, FIELD_LIMIT), false, false, link)) >= 2 * FIELD_LIMIT
  {
    var seen := Styles(Truncate(field, FIELD_LIMIT), false, false, link);
    AllWideCounts(seen[..FIELD_LIMIT]);
    PartUnits([], seen[..FIELD_LIMIT], seen[FIELD_LIMIT..]);
    assert seen == [] + seen[..FIELD_LIMIT] + seen[FIELD_LIMIT..];
  }

  lemma WideSender(s: Summary, locale: Locale)
    requires WideMail(s)
    ensures VisibleUnits(SeenSender(s, locale)) >= 4 * FIELD_LIMIT
  {
    var url := Sender(s, locale).1;
    var name, addr := Truncate(s.fromName.value, FIELD_LIMIT), Truncate(s.fromAddr.value, FIELD_LIMIT);
    var n, a := Styles(name, false, false, url), Styles(addr, false, false, url);
    var mid, end := Styles(" <", false, false, url), Styles(">", false, false, url);
    WideField(s.fromName.value, url);
    WideField(s.fromAddr.value, url);
    PartUnits(n + mid, a, end);
    PartUnits([], n, mid);
    assert [] + n + mid == n + mid;
    assert Sender(s, locale).0 == name + " <" + addr + ">";
    assert SeenSender(s, locale) == n + mid + a + end;
  }

  lemma WideNameIsShown(a: Attachment, locale: Locale)
    requires AllWide(a.name)
    ensures AttachmentName(a, locale) == Truncate(a.name, FIELD_LIMIT)
  {
    assert !IsWhitespace(a.name[0]) && !IsWhitespace(Last(a.name));
  }

  lemma UnitsOfTexts(a: string, b: string, c: string)
    ensures VisibleUnits(Plain(a + b + c)) == VisibleUnits(Plain(a)) + VisibleUnits(Plain(b)) + VisibleUnits(Plain(c))
  {
    PartUnits(Plain(a), Plain(b), Plain(c));
    assert Plain(a + b + c) == Plain(a) + Plain(b) + Plain(c);
  }

  lemma AttachmentsUnfold(shown: seq<Attachment>, locale: Locale) returns (middle: string)
    requires shown != []
    ensures SeenAttachments(shown, locale) ==
            AttachmentName(shown[0], locale) + middle + SeenAttachments(shown[1..], locale)
  {
    var size := " (" + shown[0].size + ")";
    var name := AttachmentName(shown[0], locale);
    if |shown| == 1 {
      middle := size;
      assert SeenAttachments(shown[1..], locale) == "";
    } else {
      middle := size + ", ";
      assert name + size + ", " == name + middle;
    }
  }

  lemma FirstAttachment(shown: seq<Attachment>, locale: Locale)
    requires shown != [] && AllWide(shown[0].name)
    ensures VisibleUnits(Plain(SeenAttachments(shown, locale))) >=
            600 + VisibleUnits(Plain(SeenAttachments(shown[1..], locale)))
  {
    var middle := AttachmentsUnfold(shown, locale);
    WideNameIsShown(shown[0], locale);
    WideField(shown[0].name, None);
    UnitsOfTexts(AttachmentName(shown[0], locale), middle, SeenAttachments(shown[1..], locale));
  }

  lemma {:induction false} WideAttachments(shown: seq<Attachment>, locale: Locale)
    requires forall i :: 0 <= i < |shown| ==> AllWide(shown[i].name)
    ensures VisibleUnits(Plain(SeenAttachments(shown, locale))) >= 600 * |shown|
  {
    if shown != [] {
      FirstAttachment(shown, locale);
      WideAttachments(shown[1..], locale);
    }
  }

  lemma FieldUnits(c: Caption, value: seq<Styled>)
    ensures VisibleUnits(SeenField(c, value)) >= VisibleUnits(value)
  {
    PartUnits(SeenCaption(c) + Plain(" "), value, Plain("\n"));
  }

  lemma FieldsAreSeen(s: Summary, account: Option<string>, locale: Locale)
    ensures VisibleUnits(Seen(s, account, locale)) >=
            VisibleUnits(SeenField(locale.from, SeenSender(s, locale))) + VisibleUnits(SeenAttachmentsLine(s, locale))
  {
    var t := SeenCaption(locale.title) + Plain("\n\n") + SeenMailbox(account, locale);
    var f := SeenField(locale.from, SeenSender(s, locale));
    var j := SeenField(locale.subject, Plain(SubjectText(s, locale)));
    var w, a := SeenField(locale.received, Plain(s.when)), SeenAttachmentsLine(s, locale);
    SumConcat(t, f, Width);
    SumConcat(t + f, j, Width);
    SumConcat(t + f + j, w, Width);
    SumConcat(t + f + j + w, a, Width);
    SumConcat(SeenHead(s, account, locale), Plain("\n"), Width);
    SumConcat(SeenHead(s, account, locale) + Plain("\n"), SeenPreview(s), Width);
  }

  /** The field limits do not keep such a mail within Telegram's limit. */
  lemma WideMailDoesNotFit(s: Summary, account: Option<string>, locale: Locale)
    requires WideMail(s)
    ensures VisibleUnits(Seen(s, account, locale)) > TELEGRAM_MAX_MESSAGE_LEN
  {
    FieldsAreSeen(s, account, locale);
    WideSender(s, locale);
    WideAttachments(s.attachments, locale);
    assert SeenAttachmentsValue(s, locale) == SeenAttachments(s.attachments, locale);
    FieldUnits(locale.from, SeenSender(s, locale));
    FieldUnits(locale.attachments, Plain(SeenAttachmentsValue(s, locale)));
  }

  /** There is such a mail. */
  lemma SomeMailDoesNotFit(account: Option<string>, locale: Locale) returns (s: Summary)
    ensures WideMail(s) && VisibleUnits(Seen(s, account, locale)) > TELEGRAM_MAX_MESSAGE_LEN
  {
    var icons := seq(FIELD_LIMIT, _ => '\U{1F600}');
    var a := Attachment(icons, "");
    s := Summary("", Some(icons), Some(icons), "", "", [a, a, a, a, a]);
    WideMailDoesNotFit(s, account, locale);
  }
}
