/** The registry of watchers and the counters behind /metrics. */
module Health {
  import opened Basics
  import opened Targets

  // ---- Label values ----

  /** `str::replace` of a character. */
  function Replace(s: string, c: char, with: string): string {
    if s == "" then "" else (if s[0] == c then with else [s[0]]) + Replace(s[1..], c, with)
  }

  predicate NeedsEscape(s: string) {
    '\\' in s || '"' in s || '\n' in s
  }

  function EscapeLabel(v: string): string {
    if !NeedsEscape(v) then v
    else Replace(Replace(Replace(v, '\\', "\\\\"), '"', "\\\""), '\n', "\\n")
  }

  /** One pass over the value. */
  function EscapeOnce(v: string): string {
    if v == "" then "" else EscapeLabelChar(v[0]) + EscapeOnce(v[1..])
  }

  function EscapeLabelChar(c: char): string {
    if c == '\\' then "\\\\" else if c == '"' then "\\\"" else if c == '\n' then "\\n" else [c]
  }

  lemma {:induction false} ReplaceConcat(a: string, b: string, c: char, with: string)
    ensures Replace(a + b, c, with) == Replace(a, c, with) + Replace(b, c, with)
  {
    if a == "" {
      assert a + b == b;
    } else {
      assert (a + b)[1..] == a[1..] + b;
      ReplaceConcat(a[1..], b, c, with);
    }
  }

  lemma ReplaceShort(c: char, with: string)
    ensures forall x: char :: Replace([x], c, with) == if x == c then with else [x]
    ensures forall x: char, y: char ::
              Replace([x, y], c, with) == (if x == c then with else [x]) + (if y == c then with else [y])
  {
    forall x: char
      ensures Replace([x], c, with) == if x == c then with else [x]
    {
      assert [x][1..] == "" && Replace([x][1..], c, with) == "";
    }
    forall x: char, y: char
      ensures Replace([x, y], c, with) == (if x == c then with else [x]) + (if y == c then with else [y])
    {
      assert [x, y][1..] == [y];
    }
  }

  function Chain(v: string): string {
    Replace(Replace(Replace(v, '\\', "\\\\"), '"', "\\\""), '\n', "\\n")
  }

  lemma ChainOnChar(c: char)
    ensures Chain([c]) == EscapeLabelChar(c)
  {
    ReplaceShort('\\', "\\\\");
    ReplaceShort('"', "\\\"");
    ReplaceShort('\n', "\\n");
    assert "\\\\" == ['\\', '\\'] && "\\\"" == ['\\', '"'] && "\\n" == ['\\', 'n'];
  }

  lemma ChainConcat(a: string, b: string)
    ensures Chain(a + b) == Chain(a) + Chain(b)
  {
    ReplaceConcat(a, b, '\\', "\\\\");
    ReplaceConcat(Replace(a, '\\', "\\\\"), Replace(b, '\\', "\\\\"), '"', "\\\"");
    ReplaceConcat(Replace(Replace(a, '\\', "\\\\"), '"', "\\\""), Replace(Replace(b, '\\', "\\\\"), '"', "\\\""),
        '\n', "\\n");
  }

  lemma {:induction false} ChainIsOnePass(v: string)
    ensures Chain(v) == EscapeOnce(v)
  {
    if v != "" {
      assert v == [v[0]] + v[1..];
      ChainConcat([v[0]], v[1..]);
      ChainOnChar(v[0]);
      ChainIsOnePass(v[1..]);
    }
  }

  lemma {:induction false} NothingToEscape(v: string)
    requires !NeedsEscape(v)
    ensures EscapeOnce(v) == v
  {
    if v != "" {
      assert v[0] in v && forall c :: c in v[1..] ==> c in v;
      NothingToEscape(v[1..]);
    }
  }

  /** The three chained replacements, and the shortcut past them, are one escaping pass. */
  lemma EscapeIsOnePass(v: string)
    ensures EscapeLabel(v) == EscapeOnce(v)
  {
    if NeedsEscape(v) {
      ChainIsOnePass(v);
    } else {
      NothingToEscape(v);
    }
  }

  function Unescape(s: string): string {
    if s == "" then "" else
    if s[0] == '\\' && |s| > 1 then [if s[1] == 'n' then '\n' else s[1]] + Unescape(s[2..])
    else [s[0]] + Unescape(s[1..])
  }

  lemma {:induction false} UnescapeInvertsOnce(v: string)
    ensures Unescape(EscapeOnce(v)) == v
  {
    if v != "" {
      UnescapeInvertsOnce(v[1..]);
      var e := EscapeOnce(v);
      if |EscapeLabelChar(v[0])| == 2 {
        assert e[2..] == EscapeOnce(v[1..]);
      } else {
        assert e[1..] == EscapeOnce(v[1..]);
      }
    }
  }

  /** Where a quoted value ends: at the first quote that no backslash takes. */
  function EndOfValue(s: string): (k: nat)
    ensures k <= |s|
  {
    if s == "" || s[0] == '"' then 0 else
    if s[0] == '\\' && |s| > 1 then 2 + EndOfValue(s[2..]) else 1 + EndOfValue(s[1..])
  }

  lemma {:induction false} ValueEndsAtItsQuote(v: string, rest: string)
    ensures EndOfValue(EscapeOnce(v) + "\"" + rest) == |EscapeOnce(v)|
    ensures '\n' !in EscapeOnce(v)
  {
    var s := EscapeOnce(v) + "\"" + rest;
    if v == "" {
      assert s[0] == '"';
    } else {
      ValueEndsAtItsQuote(v[1..], rest);
      var tail := EscapeOnce(v[1..]) + "\"" + rest;
      if |EscapeLabelChar(v[0])| == 2 {
        assert s[2..] == tail;
      } else {
        assert s[1..] == tail;
      }
    }
  }

  /** An escaped value has an exact inverse, no raw newline, and no quote that a
      reader would take for the closing one. */
  lemma EscapedLabelIsSafe(v: string, rest: string)
    ensures Unescape(EscapeLabel(v)) == v
    ensures '\n' !in EscapeLabel(v)
    ensures EndOfValue(EscapeLabel(v) + "\"" + rest) == |EscapeLabel(v)|
  {
    EscapeIsOnePass(v);
    UnescapeInvertsOnce(v);
    ValueEndsAtItsQuote(v, rest);
  }

  /** The text format escapes a backslash, a double quote and a line feed, each with a
      backslash (Prometheus exposition formats, "Text format details"). */
  lemma LabelEscapes(c: char)
    ensures EscapeLabel([c]) ==
            if c == '\\' then "\\\\" else if c == '"' then "\\\"" else if c == '\n' then "\\n" else [c]
  {
    EscapeIsOnePass([c]);
    assert EscapeOnce([c]) == EscapeLabelChar(c) + "";
  }

  /** A value is escaped character by character. */
  lemma LabelEscapesEach(a: string, b: string)
    ensures EscapeLabel(a + b) == EscapeLabel(a) + EscapeLabel(b)
  {
    EscapeIsOnePass(a + b);
    EscapeIsOnePass(a);
    EscapeIsOnePass(b);
    EscapeOnceConcat(a, b);
  }

  lemma {:induction false} EscapeOnceConcat(a: string, b: string)
    ensures EscapeOnce(a + b) == EscapeOnce(a) + EscapeOnce(b)
  {
    if a == "" {
      assert a + b == b;
    } else {
      assert (a + b)[1..] == a[1..] + b;
      EscapeOnceConcat(a[1..], b);
    }
  }

  // ---- Label sets ----

  datatype LabelPair = LabelPair(name: string, value: string)

  function RenderPair(p: LabelPair): string {
    p.name + "=\"" + EscapeLabel(p.value) + "\""
  }

  function RenderPairs(labels: seq<LabelPair>): seq<string> {
    if labels == [] then [] else [RenderPair(labels[0])] + RenderPairs(labels[1..])
  }

  function RenderLabels(labels: seq<LabelPair>): string {
    Join(RenderPairs(labels), ",")
  }

  /** Reads a rendered label set back. */
  function ParseLabels(s: string): seq<LabelPair> {
    var k := IndexOf(s, '=');
    if k + 1 >= |s| then [] else
      var v := s[k + 2..];
      var e := EndOfValue(v);
      var p := LabelPair(s[..k], Unescape(v[..e]));
      if e + 2 >= |v| then [p] else [p] + ParseLabels(v[e + 2..])
  }

  ghost predicate GoodNames(labels: seq<LabelPair>) {
    forall i :: 0 <= i < |labels| ==> '=' !in labels[i].name
  }

  /** Reading one rendered pair, for any value text `e` that ends where it should. */
  lemma ParseText(name: string, e: string, more: string)
    requires '=' !in name && EndOfValue(e + "\"" + more) == |e| && (more == "" || more[0] == ',')
    ensures ParseLabels(name + "=\"" + e + "\"" + more) ==
            [LabelPair(name, Unescape(e))] + if |more| <= 1 then [] else ParseLabels(more[1..])
  {
    var s, v := name + "=\"" + e + "\"" + more, e + "\"" + more;
    assert s == name + ['='] + ("\"" + v);
    SplitAtFirst(name, '=', "\"" + v);
    assert s[|name| + 2..] == s[|name| + 1..][1..] == v;
    ReadValue(s, name, e, more);
  }

  lemma ReadValue(s: string, name: string, e: string, more: string)
    requires IndexOf(s, '=') == |name| && |name| + 2 <= |s| && s[..|name|] == name
    requires s[|name| + 2..] == e + "\"" + more && EndOfValue(e + "\"" + more) == |e| && (more == "" || more[0] == ',')
    ensures ParseLabels(s) == [LabelPair(name, Unescape(e))] + if |more| <= 1 then [] else ParseLabels(more[1..])
  {
    var v := e + "\"" + more;
    assert v[..|e|] == e;
    if |more| > 1 {
      assert v[|e| + 2..] == more[1..];
    }
  }

  lemma ParseStep(p: LabelPair, more: string)
    requires '=' !in p.name && (more == "" || more[0] == ',')
    ensures ParseLabels(RenderPair(p) + more) == [p] + if |more| <= 1 then [] else ParseLabels(more[1..])
  {
    EscapedLabelIsSafe(p.value, more);
    ParseText(p.name, EscapeLabel(p.value), more);
  }

  lemma ParsePrefixed(p: LabelPair, pair: string, rest: string)
    requires '=' !in p.name && pair == RenderPair(p) && rest != ""
    ensures ParseLabels(pair + "," + rest) == [p] + ParseLabels(rest)
  {
    ParseStep(p, "," + rest);
    assert pair + ("," + rest) == pair + "," + rest;
    assert ("," + rest)[1..] == rest;
  }

  lemma OneLabelRoundTrips(p: LabelPair)
    requires '=' !in p.name
    ensures ParseLabels(RenderLabels([p])) == [p]
  {
    ParseStep(p, "");
    assert RenderPairs([p]) == [RenderPair(p)];
    assert RenderLabels([p]) == RenderPair(p) + "";
  }

  /** Rendering puts a comma after the first of several pairs. */
  lemma RenderSeveral(labels: seq<LabelPair>)
    requires |labels| > 1
    ensures RenderLabels(labels[1..]) != ""
    ensures RenderLabels(labels) == RenderPair(labels[0]) + "," + RenderLabels(labels[1..])
  {
  }

  lemma {:induction false} LabelsRoundTrip(labels: seq<LabelPair>)
    requires GoodNames(labels)
    ensures ParseLabels(RenderLabels(labels)) == labels
  {
    if |labels| == 1 {
      OneLabelRoundTrips(labels[0]);
      assert labels == [labels[0]];
    } else if |labels| > 1 {
      LabelsRoundTrip(labels[1..]);
      RenderSeveral(labels);
      ParsePrefixed(labels[0], RenderPair(labels[0]), RenderLabels(labels[1..]));
    }
  }

  /** Distinct label tuples render to distinct samples. */
  lemma RenderLabelsInjective(a: seq<LabelPair>, b: seq<LabelPair>)
    requires GoodNames(a) && GoodNames(b)
    ensures RenderLabels(a) == RenderLabels(b) <==> a == b
  {
    LabelsRoundTrip(a);
    LabelsRoundTrip(b);
  }

  // ---- Counters ----

  datatype Bump = Bump(name: string, labels: seq<LabelPair>)

  function CountOf(history: seq<Bump>, b: Bump): nat {
    if history == [] then 0 else CountOf(history[..|history| - 1], b) + if Last(history) == b then 1 else 0
  }

  lemma {:induction false} CountIsMultiplicity(history: seq<Bump>, b: Bump)
    ensures CountOf(history, b) == multiset(history)[b]
  {
    if history != [] {
      CountIsMultiplicity(history[..|history| - 1], b);
      assert history == history[..|history| - 1] + [Last(history)];
    }
  }

  type Counters = map<string, map<string, nat>>

  function Sample(counters: Counters, name: string, sample: string): nat {
    if name in counters && sample in counters[name] then counters[name][sample] else 0
  }

  function Bumped(counters: Counters, b: Bump): Counters {
    var family := if b.name in counters then counters[b.name] else map[];
    var sample := RenderLabels(b.labels);
    counters[b.name := family[sample := (if sample in family then family[sample] else 0) + 1]]
  }

  function CountersAfter(history: seq<Bump>): Counters {
    if history == [] then map[] else Bumped(CountersAfter(history[..|history| - 1]), Last(history))
  }

  /** For any history of increments, each sample counts exactly the increments of its
      own name and label tuple. */
  lemma SamplesAreExact(history: seq<Bump>, b: Bump)
    requires GoodNames(b.labels) && forall i :: 0 <= i < |history| ==> GoodNames(history[i].labels)
    ensures Sample(CountersAfter(history), b.name, RenderLabels(b.labels)) == multiset(history)[b]
  {
    CountIsMultiplicity(history, b);
    SamplesCount(history, b);
  }

  lemma {:induction false} SamplesCount(history: seq<Bump>, b: Bump)
    requires GoodNames(b.labels) && forall i :: 0 <= i < |history| ==> GoodNames(history[i].labels)
    ensures Sample(CountersAfter(history), b.name, RenderLabels(b.labels)) == CountOf(history, b)
  {
    if history != [] {
      var h := Last(history);
      SamplesCount(history[..|history| - 1], b);
      RenderLabelsInjective(h.labels, b.labels);
      if h.name == b.name && h.labels == b.labels {
        assert h == b;
      }
    }
  }

  class Metrics {
    var counters: Counters

    constructor ()
      ensures counters == CountersAfter([])
    {
      counters := map[];
    }

    method Inc(name: string, labels: seq<LabelPair>, ghost history: seq<Bump>)
      requires counters == CountersAfter(history)
      modifies this
      ensures counters == CountersAfter(history + [Bump(name, labels)])
    {
      var sample := RenderLabels(labels);
      if name !in counters {
        counters := counters[name := map[]];
      }
      var family := counters[name];
      if sample !in family {
        family := family[sample := 0];
      }
      counters := counters[name := family[sample := family[sample] + 1]];
      ghost var longer := history + [Bump(name, labels)];
      assert longer[..|longer| - 1] == history && Last(longer) == Bump(name, labels);
      ghost var family0 := if name in old(counters) then old(counters)[name] else map[];
      assert counters[name] == family0[sample := (if sample in family0 then family0[sample] else 0) + 1];
      assert counters == Bumped(old(counters), Bump(name, labels));
    }
  }

  // ---- The registry ----

  datatype WatcherStatus = WatcherStatus(connected: bool, lastActivity: Option<nat>)

  type Registry = map<string, WatcherStatus>

  function WithoutChat(watchers: Registry, chat: int): Registry {
    map key | key in watchers && !KeyOfChat(key, chat) :: watchers[key]
  }

  /** The sweep drops exactly the chat's own targets. */
  lemma SweepIsExact(watchers: Registry, chat: int, c: int, t: WatchTarget)
    ensures t.HealthKey(c) in WithoutChat(watchers, chat) <==> t.HealthKey(c) in watchers && c != chat
    ensures t.HealthKey(c) in WithoutChat(watchers, chat) ==>
              WithoutChat(watchers, chat)[t.HealthKey(c)] == watchers[t.HealthKey(c)]
  {
    KeyOfChatIsExact(c, t, chat);
  }

  class Health {
    var watchers: Registry

    constructor ()
      ensures watchers == map[]
    {
      watchers := map[];
    }

    method Register(key: string)
      modifies this
      ensures watchers == old(watchers)[key := WatcherStatus(false, None)]
    {
      watchers := watchers[key := WatcherStatus(false, None)];
    }

    method Deregister(key: string)
      modifies this
      ensures watchers == old(watchers) - {key}
    {
      watchers := watchers - {key};
    }

    method DeregisterChat(chat: int)
      modifies this
      ensures watchers == WithoutChat(old(watchers), chat)
      ensures forall c: int, t: WatchTarget ::
                t.HealthKey(c) in watchers <==> t.HealthKey(c) in old(watchers) && c != chat
      ensures forall c: int, t: WatchTarget :: t.HealthKey(c) in watchers ==>
                watchers[t.HealthKey(c)] == old(watchers)[t.HealthKey(c)]
    {
      watchers := map key | key in watchers && !KeyOfChat(key, chat) :: watchers[key];
      forall c: int, t: WatchTarget
        ensures t.HealthKey(c) in watchers <==> t.HealthKey(c) in old(watchers) && c != chat
      {
        SweepIsExact(old(watchers), chat, c, t);
      }
    }

    /** An update never brings an entry back: the set of keys is unchanged. */
    method SetConnected(key: string, connected: bool)
      modifies this
      ensures watchers.Keys == old(watchers).Keys
      ensures key in watchers ==> watchers[key] == old(watchers)[key].(connected := connected)
      ensures forall k :: k in watchers && k != key ==> watchers[k] == old(watchers)[k]
    {
      if key in watchers {
        watchers := watchers[key := watchers[key].(connected := connected)];
      }
    }

    method Touch(key: string, now: nat)
      modifies this
      ensures watchers.Keys == old(watchers).Keys
      ensures key in watchers ==> watchers[key] == old(watchers)[key].(lastActivity := Some(now))
      ensures forall k :: k in watchers && k != key ==> watchers[k] == old(watchers)[k]
    {
      if key in watchers {
        watchers := watchers[key := watchers[key].(lastActivity := Some(now))];
      }
    }
  }
}
