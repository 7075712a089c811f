/** Small shared vocabulary: optional values, lists and the text operations of
    Rust's `str` that several parts of the bot rely on. */
module Basics {

  datatype Option<+T> = None | Some(value: T)

  datatype Result<+T> = Ok(value: T) | Err

  function Last<T>(s: seq<T>): T
    requires s != []
  {
    s[|s| - 1]
  }

  function Flatten<T>(parts: seq<seq<T>>): seq<T> {
    if parts == [] then [] else parts[0] + Flatten(parts[1..])
  }

  lemma {:induction false} FlattenAppend<T>(a: seq<seq<T>>, b: seq<seq<T>>)
    ensures Flatten(a + b) == Flatten(a) + Flatten(b)
  {
    if a == [] {
      assert a + b == b;
    } else {
      assert (a + b)[1..] == a[1..] + b;
      FlattenAppend(a[1..], b);
    }
  }

  lemma FlattenSnoc<T>(a: seq<seq<T>>, g: seq<T>)
    ensures Flatten(a + [g]) == Flatten(a) + g
  {
    FlattenAppend(a, [g]);
    assert Flatten([g]) == g + Flatten([]);
  }

  lemma {:induction false} MemberOfFlatten<T>(parts: seq<seq<T>>, x: T) returns (k: nat)
    requires x in Flatten(parts)
    ensures k < |parts| && x in parts[k]
  {
    if x in parts[0] {
      k := 0;
    } else {
      assert x in Flatten(parts[1..]);
      k := MemberOfFlatten(parts[1..], x);
      k := k + 1;
    }
  }

  /** The parts in order with `sep` between neighbours. */
  function Join(parts: seq<string>, sep: string): string {
    if parts == [] then "" else
    if |parts| == 1 then parts[0] else parts[0] + sep + Join(parts[1..], sep)
  }

  lemma {:induction false} JoinSnoc(parts: seq<string>, sep: string, p: string)
    requires parts != []
    ensures Join(parts + [p], sep) == Join(parts, sep) + sep + p
  {
    if |parts| == 1 {
      assert (parts + [p])[1..] == [p];
    } else {
      assert (parts + [p])[1..] == parts[1..] + [p];
      JoinSnoc(parts[1..], sep, p);
    }
  }

  /** Where `c` first occurs in `s`, or the length of `s` when it does not. */
  function IndexOf(s: string, c: char): (k: nat)
    ensures k <= |s|
    ensures forall i :: 0 <= i < k ==> s[i] != c
    ensures k < |s| ==> s[k] == c
  {
    if s == "" || s[0] == c then 0 else 1 + IndexOf(s[1..], c)
  }

  /** A separator after text without it is found, and splits the text there. */
  lemma SplitAtFirst(a: string, c: char, b: string)
    requires c !in a
    ensures IndexOf(a + [c] + b, c) == |a|
    ensures (a + [c] + b)[..|a|] == a && (a + [c] + b)[|a| + 1..] == b
  {
    var s := a + [c] + b;
    assert s[|a|] == c;
    assert forall i :: 0 <= i < |a| ==> s[i] == a[i] && a[i] in a;
  }

  lemma AroundBreak(text: string, k: nat)
    requires k < |text| && text[k] == '\n'
    ensures text == text[..k] + "\n" + text[k + 1..]
  {
  }

  function StripCr(line: string): string {
    if line != "" && Last(line) == '\r' then line[..|line| - 1] else line
  }

  /** `str::lines`: a carriage return goes only together with its line feed, and
      text after the last line feed is a line unless it is empty. */
  function Lines(text: string): (r: seq<string>)
    ensures forall k :: 0 <= k < |r| ==> '\n' !in r[k]
  {
    if text == "" then [] else
      var k := IndexOf(text, '\n');
      if k == |text| then
        [text]
      else [StripCr(text[..k])] + Lines(text[k + 1..])
  }

  /** `char::is_whitespace` (Unicode White_Space). */
  predicate IsWhitespace(c: char) {
    var n := c as int;
    || 0x9 <= n <= 0xD || n == 0x20 || n == 0x85 || n == 0xA0 || n == 0x1680
    || 0x2000 <= n <= 0x200A || n == 0x2028 || n == 0x2029 || n == 0x202F
    || n == 0x205F || n == 0x3000
  }

  /** `char::is_control` (Unicode general category Cc). */
  predicate IsControl(c: char) {
    c as int <= 0x1F || 0x7F <= c as int <= 0x9F
  }

  /** `str::trim`. */
  function Trim(s: string): (r: string)
    ensures |r| <= |s|
  {
    if s == "" then "" else
    if IsWhitespace(s[0]) then Trim(s[1..]) else
    if IsWhitespace(Last(s)) then Trim(s[..|s| - 1]) else s
  }

  /** Byte length of the UTF-8 form, which is what `str::len` counts. */
  function Utf8Len(s: string): (n: nat)
    ensures n >= |s|
  {
    if s == "" then 0 else
      var c := s[0] as int;
      (if c < 0x80 then 1 else if c < 0x800 then 2 else if c < 0x1_0000 then 3 else 4) + Utf8Len(s[1..])
  }

  /** Decimal digits of a natural number, as `{}` prints them. */
  function Digits(n: nat): (r: string)
    ensures r != ""
    ensures forall k :: 0 <= k < |r| ==> '0' <= r[k] <= '9'
  {
    var d := [('0' as int + n % 10) as char];
    if n < 10 then d else Digits(n / 10) + d
  }

  function Decimal(n: int): (r: string)
    ensures r != "" && (r[0] == '-' <==> n < 0)
    ensures forall k :: 0 <= k < |r| ==> '0' <= r[k] <= '9' || r[k] == '-'
  {
    if n < 0 then "-" + Digits(-n) else Digits(n)
  }

  lemma {:induction false} DigitsInjective(m: nat, n: nat)
    requires Digits(m) == Digits(n)
    ensures m == n
  {
    assert Last(Digits(m)) == ('0' as int + m % 10) as char;
    assert Last(Digits(n)) == ('0' as int + n % 10) as char;
    assert m % 10 == n % 10;
    if m >= 10 && n >= 10 {
      var k := |Digits(m)| - 1;
      assert Digits(m)[..k] == Digits(m / 10);
      assert Digits(n)[..k] == Digits(n / 10);
      DigitsInjective(m / 10, n / 10);
    }
  }

  lemma DecimalInjective(m: int, n: int)
    requires Decimal(m) == Decimal(n)
    ensures m == n
  {
    if m < 0 && n < 0 {
      assert Decimal(m)[1..] == Digits(-m) && Decimal(n)[1..] == Digits(-n);
      DigitsInjective(-m, -n);
    } else if m >= 0 && n >= 0 {
      DigitsInjective(m, n);
    }
  }
}
