/** The text operations of Rust's `str` as one would describe them, and the reserved
    characters of MarkdownV2 as its documentation lists them. */
module TextLaws {
  import opened Basics
  import opened Markdown

  // ---- Trimming ----

  /** The characters of Unicode's White_Space property. */
  const WHITE_SPACE := "\t\n\U{000B}\U{000C}\r \U{0085}\U{00A0}\U{1680}\U{2000}\U{2001}\U{2002}\U{2003}\U{2004}"
                       + "\U{2005}\U{2006}\U{2007}\U{2008}\U{2009}\U{200A}\U{2028}\U{2029}\U{202F}\U{205F}\U{3000}"

  lemma WhiteSpaceIs(c: char)
    ensures IsWhitespace(c) <==> c in WHITE_SPACE
  {
    var a := "\t\n\U{000B}\U{000C}\r \U{0085}\U{00A0}\U{1680}\U{2000}\U{2001}\U{2002}\U{2003}\U{2004}";
    var b := "\U{2005}\U{2006}\U{2007}\U{2008}\U{2009}\U{200A}\U{2028}\U{2029}\U{202F}\U{205F}\U{3000}";
    assert c in WHITE_SPACE <==> c in a || c in b;
    FirstWhites(c);
    LastWhites(c);
  }

  lemma FirstWhites(c: char)
    ensures c in "\t\n\U{000B}\U{000C}\r \U{0085}\U{00A0}\U{1680}\U{2000}\U{2001}\U{2002}\U{2003}\U{2004}" <==>
            var n := c as int;
            0x9 <= n <= 0xD || n == 0x20 || n == 0x85 || n == 0xA0 || n == 0x1680 || 0x2000 <= n <= 0x2004
  {
    var a := "\t\n\U{000B}\U{000C}\r \U{0085}\U{00A0}\U{1680}\U{2000}\U{2001}\U{2002}\U{2003}\U{2004}";
    assert |a| == 14;
    assert a[0] == '\t' && a[1] == '\n' && a[2] == '\U{000B}' && a[3] == '\U{000C}' && a[4] == '\r' && a[5] == ' ';
    assert a[6] == '\U{0085}' && a[7] == '\U{00A0}' && a[8] == '\U{1680}' && a[9] == '\U{2000}' && a[10] == '\U{2001}';
    assert a[11] == '\U{2002}' && a[12] == '\U{2003}' && a[13] == '\U{2004}';
  }

  lemma LastWhites(c: char)
    ensures c in "\U{2005}\U{2006}\U{2007}\U{2008}\U{2009}\U{200A}\U{2028}\U{2029}\U{202F}\U{205F}\U{3000}" <==>
            var n := c as int;
            0x2005 <= n <= 0x200A || n == 0x2028 || n == 0x2029 || n == 0x202F || n == 0x205F || n == 0x3000
  {
    var b := "\U{2005}\U{2006}\U{2007}\U{2008}\U{2009}\U{200A}\U{2028}\U{2029}\U{202F}\U{205F}\U{3000}";
    assert |b| == 11;
    assert b[0] == '\U{2005}' && b[1] == '\U{2006}' && b[2] == '\U{2007}' && b[3] == '\U{2008}' && b[4] == '\U{2009}';
    assert b[5] == '\U{200A}' && b[6] == '\U{2028}' && b[7] == '\U{2029}' && b[8] == '\U{202F}' && b[9] == '\U{205F}';
    assert b[10] == '\U{3000}';
  }

  predicate AllWhite(s: string) {
    forall i :: 0 <= i < |s| ==> IsWhitespace(s[i])
  }

  /** The general category Cc: two rows of 32 codes, and the delete character. */
  lemma ControlIs(c: char)
    ensures IsControl(c) <==> c as int < 160 && (c as int % 128 < 32 || c as int == 127)
  {
  }

  /** `t` is `s` without white space around it. */
  predicate IsTrimmed(s: string, t: string, pre: string, post: string) {
    && s == pre + t + post && AllWhite(pre) && AllWhite(post)
    && (t != "" ==> !IsWhitespace(t[0]) && !IsWhitespace(Last(t)))
  }

  ghost predicate Trimmed(s: string, t: string) {
    exists pre, post :: IsTrimmed(s, t, pre, post)
  }

  lemma WhiteInFront(c: char, s: string, t: string, pre: string, post: string)
    requires IsWhitespace(c)
    ensures IsTrimmed([c] + s, t, [c] + pre, post) <==> IsTrimmed(s, t, pre, post)
  {
    var p := [c] + pre;
    assert [c] + s == p + t + post <==> s == pre + t + post by {
      assert p + t + post == [c] + (pre + t + post);
      assert ([c] + s)[1..] == s && ([c] + (pre + t + post))[1..] == pre + t + post;
    }
    assert forall i :: 0 < i < |p| ==> p[i] == pre[i - 1];
    assert forall i :: 0 <= i < |pre| ==> pre[i] == p[i + 1];
  }

  lemma WhiteBehind(c: char, s: string, t: string, pre: string, post: string)
    requires IsWhitespace(c)
    ensures IsTrimmed(s + [c], t, pre, post + [c]) <==> IsTrimmed(s, t, pre, post)
  {
    var q := post + [c];
    assert s + [c] == pre + t + q <==> s == pre + t + post by {
      assert pre + t + q == (pre + t + post) + [c];
      assert (s + [c])[..|s|] == s && ((pre + t + post) + [c])[..|pre + t + post|] == pre + t + post;
    }
    assert forall i :: 0 <= i < |post| ==> q[i] == post[i];
  }

  lemma {:induction false} TrimSplits(s: string) returns (pre: string, post: string)
    ensures IsTrimmed(s, Trim(s), pre, post)
    decreases |s|
  {
    pre, post := "", "";
    if s != "" {
      if IsWhitespace(s[0]) {
        pre, post := TrimSplits(s[1..]);
        WhiteInFront(s[0], s[1..], Trim(s), pre, post);
        assert s == [s[0]] + s[1..];
        pre := [s[0]] + pre;
      } else if IsWhitespace(Last(s)) {
        pre, post := TrimSplits(s[..|s| - 1]);
        WhiteBehind(Last(s), s[..|s| - 1], Trim(s), pre, post);
        assert s == s[..|s| - 1] + [Last(s)];
        post := post + [Last(s)];
      } else {
        assert s == pre + s + post;
      }
    }
  }

  lemma {:induction false} TrimIsOnly(s: string, t: string, pre: string, post: string)
    requires IsTrimmed(s, t, pre, post)
    ensures t == Trim(s)
    decreases |s|
  {
    if s != "" {
      if pre != "" {
        assert pre == [pre[0]] + pre[1..] && s[0] == pre[0] && s == [s[0]] + s[1..];
        WhiteInFront(pre[0], s[1..], t, pre[1..], post);
        TrimIsOnly(s[1..], t, pre[1..], post);
      } else if t == "" {
        assert s == post && post == [post[0]] + post[1..];
        assert IsTrimmed(s, t, [post[0]], post[1..]);
        WhiteInFront(post[0], s[1..], t, "", post[1..]);
        assert [post[0]] + "" == [post[0]];
        TrimIsOnly(s[1..], t, "", post[1..]);
      } else if post != "" {
        var m := |post| - 1;
        assert s == t + post && post == post[..m] + [post[m]];
        assert s[0] == t[0] && Last(s) == post[m] && s == s[..|s| - 1] + [Last(s)];
        WhiteBehind(post[m], s[..|s| - 1], t, pre, post[..m]);
        TrimIsOnly(s[..|s| - 1], t, pre, post[..m]);
      } else {
        assert s == t;
      }
    }
  }

  /** `str::trim` takes white space off both ends, all of it and nothing else. */
  lemma TrimIff(s: string, t: string)
    ensures Trimmed(s, t) <==> t == Trim(s)
  {
    var pre, post := TrimSplits(s);
    if pre', post' :| IsTrimmed(s, t, pre', post') {
      TrimIsOnly(s, t, pre', post');
    }
  }

  // ---- Lines ----

  /** A part of the text between line feeds as a line: a carriage return before a line
      feed goes with it. */
  predicate IsLineOf(line: string, part: string, broken: bool) {
    if broken && part != "" && Last(part) == '\r' then part == line + "\r" else part == line
  }

  /** The lines of the text that these parts make, with a line feed between neighbours. */
  ghost predicate AreLinesOf(lines: seq<string>, parts: seq<string>)
    requires parts != []
  {
    && |lines| == (if Last(parts) == "" then |parts| - 1 else |parts|)
    && forall k :: 0 <= k < |lines| ==> IsLineOf(lines[k], parts[k], k < |parts| - 1)
  }

  ghost predicate WithoutBreaks(parts: seq<string>) {
    forall k :: 0 <= k < |parts| ==> '\n' !in parts[k]
  }

  lemma NoBreak(s: string)
    ensures IndexOf(s, '\n') == |s| <==> '\n' !in s
  {
    var k := IndexOf(s, '\n');
    assert k < |s| ==> s[k] in s;
  }

  lemma JoinFirst(parts: seq<string>)
    requires |parts| > 1 && '\n' !in parts[0]
    ensures var text := Join(parts, "\n");
            && IndexOf(text, '\n') == |parts[0]| < |text|
            && text[..|parts[0]|] == parts[0] && text[|parts[0]| + 1..] == Join(parts[1..], "\n")
  {
    assert Join(parts, "\n") == parts[0] + ['\n'] + Join(parts[1..], "\n");
    SplitAtFirst(parts[0], '\n', Join(parts[1..], "\n"));
  }

  lemma AreLinesCons(line: string, lines: seq<string>, part: string, parts: seq<string>)
    requires parts != [] && AreLinesOf(lines, parts) && IsLineOf(line, part, true)
    ensures AreLinesOf([line] + lines, [part] + parts)
  {
    var more, all := [line] + lines, [part] + parts;
    forall k | 0 <= k < |more|
      ensures IsLineOf(more[k], all[k], k < |all| - 1)
    {
      if k > 0 {
        assert more[k] == lines[k - 1] && all[k] == parts[k - 1];
        assert IsLineOf(lines[k - 1], parts[k - 1], k - 1 < |parts| - 1);
      }
    }
  }

  /** `str::lines` cuts a text at its line feeds. */
  lemma {:induction false} LinesAreTheParts(parts: seq<string>)
    requires parts != [] && WithoutBreaks(parts)
    ensures AreLinesOf(Lines(Join(parts, "\n")), parts)
  {
    if |parts| == 1 {
      NoBreak(parts[0]);
    } else {
      JoinFirst(parts);
      LinesAreTheParts(parts[1..]);
      StrippedIsLine(parts[0]);
      AreLinesCons(StripCr(parts[0]), Lines(Join(parts[1..], "\n")), parts[0], parts[1..]);
      assert parts == [parts[0]] + parts[1..];
    }
  }

  lemma StrippedIsLine(part: string)
    ensures IsLineOf(StripCr(part), part, true)
  {
    if part != "" {
      assert part == part[..|part| - 1] + [Last(part)];
    }
  }

  lemma JoinWithFirst(first: string, rest: seq<string>)
    requires rest != []
    ensures Join([first] + rest, "\n") == first + "\n" + Join(rest, "\n")
  {
    assert ([first] + rest)[1..] == rest;
  }

  lemma NoBreakBefore(text: string)
    ensures '\n' !in text[..IndexOf(text, '\n')]
  {
    var head := text[..IndexOf(text, '\n')];
    forall i | 0 <= i < |head|
      ensures head[i] != '\n'
    {
      assert head[i] == text[i];
    }
  }

  lemma {:induction false} Parts(text: string) returns (parts: seq<string>)
    ensures parts != [] && WithoutBreaks(parts) && Join(parts, "\n") == text
    decreases |text|
  {
    var k := IndexOf(text, '\n');
    if k == |text| {
      NoBreak(text);
      parts := [text];
    } else {
      var rest := Parts(text[k + 1..]);
      NoBreakBefore(text);
      AroundBreak(text, k);
      JoinWithFirst(text[..k], rest);
      parts := [text[..k]] + rest;
    }
  }

  /** Every text is such a join, so this says what the lines of every text are. */
  lemma CutAtBreaks(text: string) returns (parts: seq<string>)
    ensures parts != [] && WithoutBreaks(parts) && Join(parts, "\n") == text
    ensures AreLinesOf(Lines(text), parts)
  {
    parts := Parts(text);
    LinesAreTheParts(parts);
  }

  // ---- Numbers and lengths ----

  /** The characters from this code on. */
  function From(s: string, code: int): nat {
    if s == "" then 0 else (if s[0] as int >= code then 1 else 0) + From(s[1..], code)
  }

  /** A character takes one byte in UTF-8, and one more from U+0080, from U+0800 and from
      U+10000 on. */
  lemma {:induction false} Utf8LenCounts(s: string)
    ensures Utf8Len(s) == |s| + From(s, 0x80) + From(s, 0x800) + From(s, 0x1_0000)
  {
    if s != "" {
      Utf8LenCounts(s[1..]);
    }
  }

  /** The number that decimal digits denote. */
  function Value(s: string): int {
    if s == "" then 0 else 10 * Value(s[..|s| - 1]) + (Last(s) as int - '0' as int)
  }

  lemma {:induction false} DigitsDenote(n: nat)
    ensures Value(Digits(n)) == n
    ensures |Digits(n)| > 1 ==> Digits(n)[0] != '0'
  {
    if n >= 10 {
      DigitsDenote(n / 10);
      var d := ('0' as int + n % 10) as char;
      assert Digits(n)[..|Digits(n)| - 1] == Digits(n / 10) && Last(Digits(n)) == d;
      assert n < 100 ==> Digits(n / 10) == [('0' as int + n / 10) as char];
    } else {
      assert Value(Digits(n)[..0]) == 0;
    }
  }

  // ---- MarkdownV2 ----

  /** What must be escaped outside entities (Telegram Bot API, "MarkdownV2 style"), and
      the backslash that does it. */
  const TO_ESCAPE := "_*[]()~`>#+-=|{}.!\\"

  lemma ReservedIs(c: char)
    ensures Reserved(c) <==> c in TO_ESCAPE
  {
    var e := "_*[]()~`>#+-=|{}.!\\";
    assert |e| == 19;
    assert e[0] == '_' && e[1] == '*' && e[2] == '[' && e[3] == ']' && e[4] == '(' && e[5] == ')' && e[6] == '~';
    assert e[7] == '`' && e[8] == '>' && e[9] == '#' && e[10] == '+' && e[11] == '-' && e[12] == '=' && e[13] == '|';
    assert e[14] == '{' && e[15] == '}' && e[16] == '.' && e[17] == '!' && e[18] == '\\';
  }

  lemma EscapedOne(c: char)
    ensures Escape([c]) == if c in TO_ESCAPE then ['\\', c] else [c]
    ensures EscapeUrl([c]) == if c == ')' || c == '\\' then ['\\', c] else [c]
  {
    ReservedIs(c);
    assert [c][1..] == "";
  }

  /** Escaping goes character by character: a backslash before each that the format
      reserves, or in an address before a closing parenthesis or a backslash. */
  lemma EscapeIs(a: string, c: char, b: string)
    ensures Escape(a + [c] + b) == Escape(a) + (if c in TO_ESCAPE then ['\\', c] else [c]) + Escape(b)
    ensures EscapeUrl(a + [c] + b) ==
            EscapeUrl(a) + (if c == ')' || c == '\\' then ['\\', c] else [c]) + EscapeUrl(b)
    ensures Escape("") == EscapeUrl("") == ""
  {
    EscapedOne(c);
    EscapeConcat(a + [c], b);
    EscapeConcat(a, [c]);
    EscapeUrlConcat(a + [c], b);
    EscapeUrlConcat(a, [c]);
  }
}
