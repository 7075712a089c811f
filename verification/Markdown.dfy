/** Printing for Telegram's MarkdownV2 and a reader of that format. The reader
    knows bold, inline links and block quotes (Telegram Bot API, "MarkdownV2
    style"); any other unescaped reserved character makes it give up, so a text it
    accepts has no other entity. */
module Markdown {
  import opened Basics

  predicate Reserved(c: char) {
    || c == '_' || c == '*' || c == '[' || c == ']' || c == '(' || c == ')' || c == '~' || c == '`' || c == '>'
    || c == '#' || c == '+' || c == '-' || c == '=' || c == '|' || c == '{' || c == '}' || c == '.' || c == '!' ||
        c == '\\'
  }

  function EscapeChar(c: char): string {
    if Reserved(c) then ['\\', c] else [c]
  }

  function Escape(s: string): string {
    if s == "" then "" else EscapeChar(s[0]) + Escape(s[1..])
  }

  function EscapeUrl(s: string): string {
    if s == "" then "" else (if s[0] == ')' || s[0] == '\\' then ['\\', s[0]] else [s[0]]) + EscapeUrl(s[1..])
  }

  lemma {:induction false} EscapeConcat(a: string, b: string)
    ensures Escape(a + b) == Escape(a) + Escape(b)
  {
    if a == "" {
      assert a + b == b;
    } else {
      assert (a + b)[1..] == a[1..] + b;
      EscapeConcat(a[1..], b);
    }
  }

  lemma {:induction false} EscapeUrlConcat(a: string, b: string)
    ensures EscapeUrl(a + b) == EscapeUrl(a) + EscapeUrl(b)
  {
    if a == "" {
      assert a + b == b;
    } else {
      assert (a + b)[1..] == a[1..] + b;
      EscapeUrlConcat(a[1..], b);
    }
  }

  method EscapeMarkdown(input: string) returns (out: string)
    ensures out == Escape(input)
  {
    out := "";
    for i := 0 to |input|
      invariant out == Escape(input[..i])
    {
      var c := input[i];
      assert input[..i + 1] == input[..i] + [c];
      EscapeConcat(input[..i], [c]);
      assert Escape([c]) == EscapeChar(c) + "";
      if Reserved(c) {
        out := out + ['\\'];
      }
      out := out + [c];
    }
    assert input[..|input|] == input;
  }

  method EscapeMarkdownUrl(input: string) returns (out: string)
    ensures out == EscapeUrl(input)
  {
    out := "";
    for i := 0 to |input|
      invariant out == EscapeUrl(input[..i])
    {
      var c := input[i];
      assert input[..i + 1] == input[..i] + [c];
      EscapeUrlConcat(input[..i], [c]);
      assert EscapeUrl([c]) == (if c == ')' || c == '\\' then ['\\', c] else [c]) + "";
      if c == ')' || c == '\\' {
        out := out + ['\\'];
      }
      out := out + [c];
    }
    assert input[..|input|] == input;
  }

  function QuoteLines(lines: seq<string>): seq<string> {
    if lines == [] then [] else [">" + lines[0]] + QuoteLines(lines[1..])
  }

  function Blockquote(escaped: string): string {
    Join(QuoteLines(Lines(escaped)), "\n")
  }

  // ---- The reader ----

  datatype Styled = Styled(c: char, bold: bool, quote: bool, link: Option<string>)

  function Styles(s: string, bold: bool, quote: bool, link: Option<string>): seq<Styled> {
    seq(|s|, i requires 0 <= i < |s| => Styled(s[i], bold, quote, link))
  }

  datatype Mode = Text | LinkText | AfterLinkText | Url | Broken

  /** `slash`: a backslash has been read and not yet used. */
  datatype Reader = Reader(
    mode: Mode, slash: bool, bold: bool, quote: bool, lineStart: bool,
    linkText: string, url: string, out: seq<Styled>)

  const START := Reader(Text, false, false, false, true, "", "", [])

  function Emit(r: Reader, c: char): Reader {
    var quote := r.quote && !r.lineStart;
    match r.mode
    case Text => r.(out := r.out + [Styled(c, r.bold, quote, None)], quote := quote, lineStart := c == '\n')
    case LinkText => r.(linkText := r.linkText + [c])
    case Url => r.(url := r.url + [c])
    case _ => r.(mode := Broken)
  }

  /** A character with no backslash before it. */
  function Unescaped(r: Reader, c: char): Reader {
    match r.mode
    case Text =>
      if r.lineStart && c == '>' then r.(quote := true, lineStart := false)
      else if c == '*' then r.(bold := !r.bold, quote := r.quote && !r.lineStart, lineStart := false)
      else if c == '[' then r.(mode := LinkText, linkText := "", quote := r.quote && !r.lineStart, lineStart := false)
      else if Reserved(c) then r.(mode := Broken)
      else Emit(r, c)
    case LinkText =>
      if c == ']' then r.(mode := AfterLinkText) else if Reserved(c) then r.(mode := Broken) else Emit(r, c)
    case AfterLinkText =>
      if c == '(' then r.(mode := Url, url := "") else r.(mode := Broken)
    case Url =>
      if c == ')' then r.(mode := Text, out := r.out + Styles(r.linkText, r.bold, r.quote, Some(r.url))) else Emit(r, c)
    case Broken => r
  }

  /** A backslash takes the next character literally when its code is 1 to 126. */
  function ReadChar(r: Reader, c: char): Reader {
    if r.slash then
      var plain := r.(slash := false);
      if 1 <= c as int <= 126 then Emit(plain, c) else Unescaped(Emit(plain, '\\'), c)
    else if c == '\\' then r.(slash := true)
    else Unescaped(r, c)
  }

  function Read(r: Reader, s: string): Reader
    decreases |s|
  {
    if s == "" then r else Read(ReadChar(r, s[0]), s[1..])
  }

  function ParseMarkdown(s: string): Option<seq<Styled>> {
    var r := Read(START, s);
    if r.mode == Text && !r.slash && !r.bold then Some(r.out) else None
  }

  lemma {:induction false} ReadConcat(r: Reader, a: string, b: string)
    ensures Read(r, a + b) == Read(Read(r, a), b)
    decreases |a|
  {
    if a == "" {
      assert a + b == b;
    } else {
      assert (a + b)[1..] == a[1..] + b;
      ReadConcat(ReadChar(r, a[0]), a[1..], b);
    }
  }

  lemma ReadOne(r: Reader, c: char)
    ensures Read(r, [c]) == ReadChar(r, c)
  {
    assert Read(ReadChar(r, c), [c][1..]) == ReadChar(r, c);
  }

  // ---- Escaped text is read as plain text ----

  /** An escaped character comes through as itself, wherever text may stand. */
  lemma ReadEscapedChar(r: Reader, c: char)
    requires !r.slash && (r.mode == Text || r.mode == LinkText)
    ensures Read(r, EscapeChar(c)) == Emit(r, c)
  {
    if Reserved(c) {
      assert ['\\', c] == ['\\'] + [c];
      ReadConcat(r, ['\\'], [c]);
      ReadOne(r, '\\');
      ReadOne(r.(slash := true), c);
    } else {
      ReadOne(r, c);
    }
  }

  lemma StylesSnoc(c: char, s: string, bold: bool, quote: bool, link: Option<string>)
    requires s != "" && s[0] == c
    ensures [Styled(c, bold, quote, link)] + Styles(s[1..], bold, quote, link) == Styles(s, bold, quote, link)
  {
  }

  lemma Regroup<T>(a: seq<T>, b: seq<T>, c: seq<T>)
    ensures a + b + c == a + (b + c)
  {
  }

  /** Outside a quote, escaped text of any content adds exactly that text. */
  lemma {:induction false} ReadEscaped(r: Reader, s: string)
    requires !r.slash && r.mode == Text && (r.quote ==> !r.lineStart && '\n' !in s)
    ensures var r' := Read(r, Escape(s));
            && r'.out == r.out + Styles(s, r.bold, r.quote, None)
            && r' == r.(out := r'.out, lineStart := r'.lineStart)
            && (r.quote ==> !r'.lineStart)
    decreases |s|
  {
    if s == "" {
      assert r.out == r.out + Styles(s, r.bold, r.quote, None);
    } else {
      var r1 := r.(out := r.out + [Styled(s[0], r.bold, r.quote, None)], lineStart := s[0] == '\n');
      assert Read(r, Escape(s)) == Read(r1, Escape(s[1..])) by {
        ReadEscapedChar(r, s[0]);
        ReadConcat(r, EscapeChar(s[0]), Escape(s[1..]));
      }
      assert s[0] in s && forall c :: c in s[1..] ==> c in s;
      ReadEscaped(r1, s[1..]);
      StylesSnoc(s[0], s, r.bold, r.quote, None);
      Regroup(r.out, [Styled(s[0], r.bold, r.quote, None)], Styles(s[1..], r.bold, r.quote, None));
    }
  }

  lemma {:induction false} ReadEscapedLinkText(r: Reader, s: string)
    requires !r.slash && r.mode == LinkText
    ensures Read(r, Escape(s)) == r.(linkText := r.linkText + s)
    decreases |s|
  {
    if s == "" {
      assert r.linkText + s == r.linkText;
    } else {
      ReadEscapedChar(r, s[0]);
      ReadConcat(r, EscapeChar(s[0]), Escape(s[1..]));
      ReadEscapedLinkText(Emit(r, s[0]), s[1..]);
      assert r.linkText + [s[0]] + s[1..] == r.linkText + s;
    }
  }

  lemma ReadEscapedUrlChar(r: Reader, c: char)
    requires !r.slash && r.mode == Url
    ensures Read(r, if c == ')' || c == '\\' then ['\\', c] else [c]) == Emit(r, c)
  {
    if c == ')' || c == '\\' {
      assert ['\\', c] == ['\\'] + [c];
      ReadConcat(r, ['\\'], [c]);
      ReadOne(r, '\\');
      ReadOne(r.(slash := true), c);
    } else {
      ReadOne(r, c);
    }
  }

  lemma {:induction false} ReadEscapedUrl(r: Reader, s: string)
    requires !r.slash && r.mode == Url
    ensures Read(r, EscapeUrl(s)) == r.(url := r.url + s)
    decreases |s|
  {
    if s == "" {
      assert r.url + s == r.url;
    } else {
      var head := if s[0] == ')' || s[0] == '\\' then ['\\', s[0]] else [s[0]];
      ReadEscapedUrlChar(r, s[0]);
      ReadConcat(r, head, EscapeUrl(s[1..]));
      ReadEscapedUrl(Emit(r, s[0]), s[1..]);
      Regroup(r.url, [s[0]], s[1..]);
      assert [s[0]] + s[1..] == s;
    }
  }

  // ---- Composition ----

  /** Between entities, outside any quote. */
  predicate Normal(r: Reader) {
    r.mode == Text && !r.slash && !r.bold && !r.quote
  }

  /** `source` shows as `visible` wherever it stands between entities. */
  ghost predicate Shows(source: string, visible: seq<Styled>) {
    forall r: Reader :: Normal(r) ==> Normal(Read(r, source)) && Read(r, source).out == r.out + visible
  }

  lemma ShowsAt(r: Reader, source: string, visible: seq<Styled>)
    requires Shows(source, visible) && Normal(r)
    ensures Normal(Read(r, source)) && Read(r, source).out == r.out + visible
  {
  }

  lemma ShowsConcat(a: string, va: seq<Styled>, b: string, vb: seq<Styled>)
    requires Shows(a, va) && Shows(b, vb)
    ensures Shows(a + b, va + vb)
  {
    forall r: Reader | Normal(r)
      ensures Normal(Read(r, a + b)) && Read(r, a + b).out == r.out + (va + vb)
    {
      ReadConcat(r, a, b);
      ShowsAt(r, a, va);
      ShowsAt(Read(r, a), b, vb);
      Regroup(r.out, va, vb);
    }
  }

  lemma ShowsEscaped(s: string)
    ensures Shows(Escape(s), Styles(s, false, false, None))
  {
    forall r: Reader | Normal(r)
      ensures Normal(Read(r, Escape(s))) && Read(r, Escape(s)).out == r.out + Styles(s, false, false, None)
    {
      ReadEscaped(r, s);
    }
  }

  predicate Safe(s: string) {
    forall i :: 0 <= i < |s| ==> !Reserved(s[i])
  }

  lemma {:induction false} SafeIsEscaped(s: string)
    requires Safe(s)
    ensures Escape(s) == s
  {
    if s != "" {
      SafeIsEscaped(s[1..]);
    }
  }

  lemma ShowsSafe(s: string)
    requires Safe(s)
    ensures Shows(s, Styles(s, false, false, None))
  {
    SafeIsEscaped(s);
    ShowsEscaped(s);
  }

  function Bold(s: string): string {
    "*" + s + "*"
  }

  lemma ShowsBold(s: string)
    requires Safe(s)
    ensures Shows(Bold(s), Styles(s, true, false, None))
  {
    SafeIsEscaped(s);
    forall r: Reader | Normal(r)
      ensures Normal(Read(r, Bold(s))) && Read(r, Bold(s)).out == r.out + Styles(s, true, false, None)
    {
      ReadConcat(r, "*" + s, "*");
      ReadConcat(r, "*", s);
      ReadOne(r, '*');
      var r1 := ReadChar(r, '*');
      ReadEscaped(r1, s);
      ReadOne(Read(r1, s), '*');
    }
  }

  function Link(display: string, url: string): string {
    "[" + Escape(display) + "](" + EscapeUrl(url) + ")"
  }

  lemma ShowsLink(display: string, url: string)
    ensures Shows(Link(display, url), Styles(display, false, false, Some(url)))
  {
    forall r: Reader | Normal(r)
      ensures Normal(Read(r, Link(display, url)))
      ensures Read(r, Link(display, url)).out == r.out + Styles(display, false, false, Some(url))
    {
      ReadLink(r, display, url);
    }
  }

  lemma ReadLinkText(r: Reader, display: string)
    requires Normal(r)
    ensures Read(r, "[" + Escape(display) + "](") == ReadChar(r, '[').(linkText := display, mode := Url, url := "")
  {
    var e := Escape(display);
    assert "[" + e + "](" == "[" + e + "]" + "(";
    ReadConcat(r, "[" + e + "]", "(");
    ReadConcat(r, "[" + e, "]");
    ReadConcat(r, "[", e);
    ReadOne(r, '[');
    var r1 := ReadChar(r, '[');
    ReadEscapedLinkText(r1, display);
    var r2 := r1.(linkText := display);
    assert "" + display == display;
    ReadOne(r2, ']');
    ReadOne(r2.(mode := AfterLinkText), '(');
  }

  lemma ReadLink(r: Reader, display: string, url: string)
    requires Normal(r)
    ensures Normal(Read(r, Link(display, url)))
    ensures Read(r, Link(display, url)).out == r.out + Styles(display, false, false, Some(url))
  {
    var e, u := Escape(display), EscapeUrl(url);
    ReadConcat(r, "[" + e + "](" + u, ")");
    ReadConcat(r, "[" + e + "](", u);
    ReadLinkText(r, display);
    var r3 := Read(r, "[" + e + "](");
    ReadEscapedUrl(r3, url);
    assert "" + url == url;
    ReadOne(r3.(url := url), ')');
  }

  // ---- Quotes ----

  function EscapeAll(lines: seq<string>): seq<string> {
    if lines == [] then [] else [Escape(lines[0])] + EscapeAll(lines[1..])
  }

  lemma {:induction false} EscapeHasNoNewline(s: string)
    requires '\n' !in s
    ensures '\n' !in Escape(s)
  {
    if s != "" {
      assert s[0] in s && forall c :: c in s[1..] ==> c in s;
      EscapeHasNoNewline(s[1..]);
    }
  }

  lemma EscapeKeepsIndex(s: string)
    ensures IndexOf(Escape(s), '\n') == |Escape(s[..IndexOf(s, '\n')])|
    ensures IndexOf(Escape(s), '\n') == |Escape(s)| <==> IndexOf(s, '\n') == |s|
  {
    var k := IndexOf(s, '\n');
    assert s == s[..k] + s[k..];
    EscapeConcat(s[..k], s[k..]);
    EscapeHasNoNewline(s[..k]);
    var e := Escape(s);
    var h := Escape(s[..k]);
    assert forall i :: 0 <= i < |h| ==> e[i] == h[i] && h[i] in h;
    if k < |s| {
      assert s[k..][0] == '\n' && Escape(s[k..])[0] == '\n';
      assert e[|h|] == '\n';
    } else {
      assert s[k..] == "" && e == h;
    }
  }

  lemma EscapeKeepsCr(s: string)
    ensures StripCr(Escape(s)) == Escape(StripCr(s))
  {
    if s != "" {
      var n := |s| - 1;
      assert s == s[..n] + [s[n]];
      EscapeConcat(s[..n], [s[n]]);
      assert Escape([s[n]]) == EscapeChar(s[n]) + "";
      assert Last(Escape(s)) == s[n];
      if s[n] == '\r' {
        assert Escape(s)[..|Escape(s)| - 1] == Escape(s[..n]);
      }
    }
  }

  lemma EscapeBreak(head: string, tail: string)
    ensures Escape(head + "\n" + tail) == Escape(head) + "\n" + Escape(tail)
    ensures Escape(head + "\n" + tail)[..|Escape(head)|] == Escape(head)
    ensures Escape(head + "\n" + tail)[|Escape(head)| + 1..] == Escape(tail)
  {
    var e, f := Escape(head), Escape(tail);
    assert head + "\n" + tail == head + ("\n" + tail);
    EscapeConcat(head, "\n" + tail);
    assert ("\n" + tail)[1..] == tail && EscapeChar('\n') == "\n";
    assert (e + "\n" + f)[..|e|] == e && (e + "\n" + f)[|e| + 1..] == f;
  }

  /** Escaping on both sides of the first line break. */
  lemma EscapeAtBreak(s: string)
    requires IndexOf(s, '\n') < |s|
    ensures var k := IndexOf(s, '\n'); var e := Escape(s); var j := IndexOf(e, '\n');
            j < |e| && e[..j] == Escape(s[..k]) && e[j + 1..] == Escape(s[k + 1..])
  {
    var k := IndexOf(s, '\n');
    AroundBreak(s, k);
    EscapeBreak(s[..k], s[k + 1..]);
    EscapeKeepsIndex(s);
  }

  /** Escaping commutes with splitting into lines. */
  lemma {:induction false} LinesOfEscaped(s: string)
    ensures Lines(Escape(s)) == EscapeAll(Lines(s))
  {
    if s != "" {
      var k := IndexOf(s, '\n');
      if k < |s| {
        var head, tail := s[..k], s[k + 1..];
        EscapeAtBreak(s);
        EscapeKeepsCr(head);
        LinesOfEscaped(tail);
        assert Lines(s) == [StripCr(head)] + Lines(tail);
        assert Lines(Escape(s)) == [StripCr(Escape(head))] + Lines(Escape(tail));
      } else {
        EscapeKeepsIndex(s);
        assert Lines(s) == [s] && EscapeAll([s]) == [Escape(s)];
      }
    }
  }

  /** One quoted line, at the start of a line. */
  lemma ReadQuotedLine(r: Reader, line: string)
    requires r.mode == Text && !r.slash && !r.bold && r.lineStart && '\n' !in line
    ensures var r' := Read(r, ">" + Escape(line));
            && r'.out == r.out + Styles(line, false, true, None)
            && r'.mode == Text && !r'.slash && !r'.bold && r'.quote && !r'.lineStart
  {
    ReadConcat(r, ">", Escape(line));
    ReadOne(r, '>');
    ReadEscaped(ReadChar(r, '>'), line);
  }

  /** One quoted line and its line break: the quote is over until the next `>`. */
  lemma ReadQuotedLineBreak(r: Reader, line: string) returns (r': Reader)
    requires r.mode == Text && !r.slash && !r.bold && r.lineStart && '\n' !in line
    ensures r' == Read(r, ">" + Escape(line) + "\n")
    ensures r'.out == r.out + Styles(line, false, true, None) + [Styled('\n', false, true, None)]
    ensures r'.mode == Text && !r'.slash && !r'.bold && r'.lineStart
  {
    ReadQuotedLine(r, line);
    ReadConcat(r, ">" + Escape(line), "\n");
    ReadOne(Read(r, ">" + Escape(line)), '\n');
    r' := Read(r, ">" + Escape(line) + "\n");
  }

  lemma QuoteSeveral(lines: seq<string>)
    requires |lines| > 1
    ensures Join(QuoteLines(EscapeAll(lines)), "\n") ==
            (">" + Escape(lines[0]) + "\n") + Join(QuoteLines(EscapeAll(lines[1..])), "\n")
  {
    var first, rest := ">" + Escape(lines[0]), QuoteLines(EscapeAll(lines[1..]));
    assert QuoteLines(EscapeAll(lines)) == [first] + rest;
    assert ([first] + rest)[1..] == rest && |rest| > 0;
  }

  lemma StylesAround(a: string, c: char, b: string, bold: bool, quote: bool, link: Option<string>)
    ensures Styles(a + [c] + b, bold, quote, link) ==
            Styles(a, bold, quote, link) + [Styled(c, bold, quote, link)] + Styles(b, bold, quote, link)
  {
  }

  lemma StylesOfSeveral(lines: seq<string>)
    requires |lines| > 1
    ensures Styles(Join(lines, "\n"), false, true, None) ==
            Styles(lines[0], false, true, None) + [Styled('\n', false, true, None)] +
                Styles(Join(lines[1..], "\n"), false, true, None)
  {
    StylesAround(lines[0], '\n', Join(lines[1..], "\n"), false, true, None);
    assert Join(lines, "\n") == lines[0] + "\n" + Join(lines[1..], "\n");
  }

  lemma {:induction false} ReadQuote(r: Reader, lines: seq<string>)
    requires r.mode == Text && !r.slash && !r.bold && r.lineStart
    requires forall i :: 0 <= i < |lines| ==> '\n' !in lines[i]
    ensures var r' := Read(r, Join(QuoteLines(EscapeAll(lines)), "\n"));
            && r'.out == r.out + Styles(Join(lines, "\n"), false, true, None)
            && r'.mode == Text && !r'.slash && !r'.bold
    decreases |lines|
  {
    if lines == [] {
      assert r.out == r.out + Styles("", false, true, None);
    } else {
      if |lines| == 1 {
        ReadQuotedLine(r, lines[0]);
        assert Join(QuoteLines(EscapeAll(lines)), "\n") == ">" + Escape(lines[0]);
      } else {
        QuoteSeveral(lines);
        StylesOfSeveral(lines);
        ReadConcat(r, ">" + Escape(lines[0]) + "\n", Join(QuoteLines(EscapeAll(lines[1..])), "\n"));
        var r2 := ReadQuotedLineBreak(r, lines[0]);
        ReadQuote(r2, lines[1..]);
      }
    }
  }

  /** A quoted text reads as its own lines, inside a quote. */
  lemma ReadBlockquote(r: Reader, s: string)
    requires r.mode == Text && !r.slash && !r.bold && r.lineStart
    ensures var r' := Read(r, Blockquote(Escape(s)));
            && r'.out == r.out + Styles(Join(Lines(s), "\n"), false, true, None)
            && r'.mode == Text && !r'.slash && !r'.bold
  {
    LinesOfEscaped(s);
    ReadQuote(r, Lines(s));
  }
}
