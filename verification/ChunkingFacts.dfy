/** What a splitting means for the reader of the messages. */
module ChunkingFacts {
  import opened Basics
  import opened Greedy
  import opened Chunking

  function WithoutNewlines(s: string): string {
    if s == "" then "" else
    if s[0] == '\n' then WithoutNewlines(s[1..]) else [s[0]] + WithoutNewlines(s[1..])
  }

  lemma {:induction false} WithoutNewlinesConcat(a: string, b: string)
    ensures WithoutNewlines(a + b) == WithoutNewlines(a) + WithoutNewlines(b)
  {
    if a == "" {
      assert a + b == b;
    } else {
      assert (a + b)[1..] == a[1..] + b;
      WithoutNewlinesConcat(a[1..], b);
    }
  }

  lemma {:induction false} NothingToRemove(s: string)
    requires '\n' !in s
    ensures WithoutNewlines(s) == s
  {
    if s != "" {
      assert s[0] in s && forall c :: c in s[1..] ==> c in s;
      NothingToRemove(s[1..]);
    }
  }

  // ---- Every chunk can be sent ----

  /** No chunk is empty and none is longer than the limit. */
  lemma EveryChunkFits(chunks: seq<string>, lines: seq<string>, limit: nat, k: nat)
    requires IsSplitting(chunks, lines, limit) && k < |chunks|
    ensures chunks[k] != "" && Units(chunks[k]) <= limit
  {
    var gs, cuts :| IsLayout(gs, cuts, lines, limit) && chunks == Chunks(gs);
    ChunksAt(gs, k);
    OpenChunk(gs[k], limit);
  }

  // ---- Nothing is lost ----

  ghost predicate AllFit(chunks: seq<string>, limit: nat) {
    forall k :: 0 <= k < |chunks| ==> chunks[k] != "" && Units(chunks[k]) <= limit
  }

  lemma {:induction false} UnitsOfMember(s: string, c: char)
    requires c in s
    ensures Units(s) >= CharUnits(c)
  {
    if s[0] != c {
      UnitsOfMember(s[1..], c);
    }
  }

  /** At any limit, every chunk of a text is non-empty and within it exactly when each
      single character of the text's lines is: always from 2 on, and at 1 exactly when
      the lines hold no character outside the basic plane. */
  lemma ChunksFitIff(chunks: seq<string>, lines: seq<string>, limit: nat)
    requires IsChunking(chunks, lines, limit)
    ensures AllFit(chunks, limit) <==> Roomy(lines, limit)
    ensures limit >= 2 ==> Roomy(lines, limit)
    ensures limit == 1 ==> (Roomy(lines, limit) <==> forall k, i :: 0 <= k < |lines| && 0 <= i < |lines[k]| ==>
                              lines[k][i] as int < 0x1_0000)
  {
    if Roomy(lines, limit) {
      forall k | 0 <= k < |chunks|
        ensures chunks[k] != "" && Units(chunks[k]) <= limit
      {
        EveryChunkFits(chunks, lines, limit, k);
      }
    } else {
      var k :| 0 <= k < |lines| && !Holds(lines[k], limit);
      var i :| 0 <= i < |lines[k]| && CharUnits(lines[k][i]) > limit;
      assert Kept(lines[k], chunks, "") && InSome(chunks, "", lines[k][i]);
      var j :| 0 <= j < |chunks| && lines[k][i] in chunks[j];
      UnitsOfMember(chunks[j], lines[k][i]);
    }
  }

  /** One character that needs two units, at limit 1. */
  lemma LimitOneCanFail(c: char, chunks: seq<string>)
    requires CharUnits(c) == 2 && IsChunking(chunks, Lines([c]), 1)
    ensures !AllFit(chunks, 1)
  {
    assert IndexOf([c], '\n') == 1 by {
      assert [c][1..] == "";
    }
    assert Lines([c]) == [[c]] && !Holds([c], 1) by {
      assert CharUnits([c][0]) == 2;
    }
    assert !Holds(Lines([c])[0], 1);
    ChunksFitIff(chunks, Lines([c]), 1);
  }

  function NonBlank(parts: seq<string>): seq<string> {
    if parts == [] then [] else
    if parts[0] == "" then NonBlank(parts[1..]) else [parts[0]] + NonBlank(parts[1..])
  }

  lemma {:induction false} NonBlankConcat(a: seq<string>, b: seq<string>)
    ensures NonBlank(a + b) == NonBlank(a) + NonBlank(b)
  {
    if a == [] {
      assert a + b == b;
    } else {
      assert (a + b)[1..] == a[1..] + b;
      NonBlankConcat(a[1..], b);
    }
  }

  lemma {:induction false} FlattenNonBlank(parts: seq<string>)
    ensures Flatten(NonBlank(parts)) == Flatten(parts)
  {
    if parts != [] {
      FlattenNonBlank(parts[1..]);
      if parts[0] != "" {
        assert NonBlank(parts)[1..] == NonBlank(parts[1..]);
      } else {
        assert Flatten(parts) == "" + Flatten(parts[1..]);
      }
    }
  }

  lemma {:induction false} FlattenCuts(cuts: seq<seq<string>>, lines: seq<string>, limit: nat)
    requires AreCuts(cuts, lines, limit)
    ensures Flatten(Flatten(cuts)) == Flatten(lines)
  {
    if lines != [] {
      FlattenCuts(cuts[1..], lines[1..], limit);
      FlattenAppend(cuts[0], Flatten(cuts[1..]));
      assert IsCut(cuts[0], lines[0], limit);
      if cuts[0] == [lines[0]] {
        assert cuts[0][1..] == [];
        assert Flatten(cuts[0]) == lines[0] + "";
      }
    }
  }

  lemma {:induction false} ChunkCharacters(g: seq<string>)
    requires forall i :: 0 <= i < |g| ==> '\n' !in g[i]
    ensures WithoutNewlines(ChunkOf(g)) == Flatten(g)
  {
    if |g| == 1 {
      NothingToRemove(g[0]);
      assert Flatten(g[1..]) == "";
    } else if |g| > 1 {
      NothingToRemove(g[0]);
      ChunkCharacters(g[1..]);
      WithoutNewlinesConcat(g[0] + "\n", ChunkOf(g[1..]));
      WithoutNewlinesConcat(g[0], "\n");
    }
  }

  lemma {:induction false} ChunksCharacters(gs: seq<seq<string>>)
    requires forall k, i :: 0 <= k < |gs| && 0 <= i < |gs[k]| ==> '\n' !in gs[k][i]
    ensures WithoutNewlines(Flatten(Chunks(gs))) == Flatten(Flatten(gs))
  {
    if gs != [] {
      ChunkCharacters(gs[0]);
      ChunksCharacters(gs[1..]);
      WithoutNewlinesConcat(ChunkOf(gs[0]), Flatten(Chunks(gs[1..])));
      FlattenAppend(gs[0], Flatten(gs[1..]));
    }
  }

  /** Only blank lines are missing from the placed pieces. */
  lemma {:induction false} PlacedText(cuts: seq<seq<string>>, lines: seq<string>, limit: nat)
    requires AreCuts(cuts, lines, limit)
    ensures NonBlank(Placed(cuts, lines, limit)) == NonBlank(Flatten(cuts))
  {
    if lines != [] {
      var n := |lines| - 1;
      var front, cut := Placed(cuts[..n], lines[..n], limit), cuts[n];
      PlacedText(cuts[..n], lines[..n], limit);
      assert cuts == cuts[..n] + [cut];
      FlattenSnoc(cuts[..n], cut);
      NonBlankConcat(Flatten(cuts[..n]), cut);
      NonBlankConcat(front, cut);
      if Dropped(lines[..n], lines[n], limit) {
        DroppedLeavesNothing(cut, lines[n], limit);
        assert front + [] == front;
      }
    }
  }

  lemma {:induction false} NothingDropped(cuts: seq<seq<string>>, lines: seq<string>, limit: nat)
    requires |cuts| == |lines| && forall i :: 0 <= i < |lines| ==> lines[i] != ""
    ensures Placed(cuts, lines, limit) == Flatten(cuts)
  {
    if lines != [] {
      var n := |lines| - 1;
      NothingDropped(cuts[..n], lines[..n], limit);
      FlattenSnoc(cuts[..n], cuts[n]);
      assert cuts == cuts[..n] + [cuts[n]];
    }
  }

  lemma DroppedLeavesNothing(cut: seq<string>, line: string, limit: nat)
    requires IsCut(cut, line, limit) && line == ""
    ensures NonBlank(cut) == []
  {
    assert cut[1..] == [];
  }

  /** The characters of the lines survive, in order. */
  lemma CharactersSurvive(chunks: seq<string>, lines: seq<string>, limit: nat)
    requires IsSplitting(chunks, lines, limit)
    ensures WithoutNewlines(Flatten(chunks)) == Flatten(lines)
  {
    var gs, cuts :| IsLayout(gs, cuts, lines, limit) && chunks == Chunks(gs);
    forall k, i | 0 <= k < |gs| && 0 <= i < |gs[k]|
      ensures '\n' !in gs[k][i]
    {
      assert GroupOk(gs[k], limit);
    }
    ChunksCharacters(gs);
    PlacedText(cuts, lines, limit);
    FlattenNonBlank(Flatten(gs));
    FlattenNonBlank(Flatten(cuts));
    FlattenCuts(cuts, lines, limit);
  }

  // ---- Lines stay whole ----

  ghost predicate WholeIn(line: string, chunk: string, pre: string, post: string) {
    && chunk == pre + line + post
    && (pre == "" || Last(pre) == '\n')
    && (post == "" || post[0] == '\n')
  }

  lemma {:induction false} FlattenHasMember<T>(parts: seq<seq<T>>, k: nat, x: T)
    requires k < |parts| && x in parts[k]
    ensures x in Flatten(parts)
  {
    if k > 0 {
      FlattenHasMember(parts[1..], k - 1, x);
    }
  }

  lemma {:induction false} NonBlankMember(parts: seq<string>, p: string)
    ensures p in NonBlank(parts) <==> p in parts && p != ""
  {
    if parts != [] {
      NonBlankMember(parts[1..], p);
      assert p in parts <==> p == parts[0] || p in parts[1..];
    }
  }

  lemma {:induction false} PieceIsWhole(g: seq<string>, line: string) returns (pre: string, post: string)
    requires line in g
    ensures WholeIn(line, ChunkOf(g), pre, post)
  {
    if g[0] == line {
      pre := "";
      post := if |g| == 1 then "" else "\n" + ChunkOf(g[1..]);
      assert ChunkOf(g) == pre + line + post;
    } else {
      assert line in g[1..];
      var p;
      p, post := PieceIsWhole(g[1..], line);
      pre := g[0] + "\n" + p;
      assert ChunkOf(g) == pre + line + post;
      assert p != "" ==> Last(pre) == Last(p);
    }
  }

  /** A line that fits sits whole, as a line, inside one chunk. */
  lemma FittingLineStaysWhole(chunks: seq<string>, lines: seq<string>, limit: nat, i: nat)
    returns (k: nat, pre: string, post: string)
    requires IsSplitting(chunks, lines, limit) && i < |lines| && lines[i] != "" && Units(lines[i]) <= limit
    ensures k < |chunks| && WholeIn(lines[i], chunks[k], pre, post)
  {
    var gs, cuts :| IsLayout(gs, cuts, lines, limit) && chunks == Chunks(gs);
    assert IsCut(cuts[i], lines[i], limit) && lines[i] in cuts[i];
    FlattenHasMember(cuts, i, lines[i]);
    PlacedText(cuts, lines, limit);
    NonBlankMember(Flatten(cuts), lines[i]);
    NonBlankMember(Flatten(gs), lines[i]);
    k := MemberOfFlatten(gs, lines[i]);
    ChunksAt(gs, k);
    pre, post := PieceIsWhole(gs[k], lines[i]);
  }

  // ---- Joining back ----

  ghost predicate PlainLines(lines: seq<string>, limit: nat) {
    forall i :: 0 <= i < |lines| ==> lines[i] != "" && Units(lines[i]) <= limit
  }

  lemma {:induction false} CutsOfPlainLines(cuts: seq<seq<string>>, lines: seq<string>, limit: nat)
    requires AreCuts(cuts, lines, limit) && PlainLines(lines, limit)
    ensures Flatten(cuts) == lines
  {
    if lines != [] {
      assert IsCut(cuts[0], lines[0], limit);
      CutsOfPlainLines(cuts[1..], lines[1..], limit);
    }
  }

  lemma {:induction false} JoinConcat(a: seq<string>, b: seq<string>, sep: string)
    requires a != [] && b != []
    ensures Join(a + b, sep) == Join(a, sep) + sep + Join(b, sep)
  {
    assert (a + b)[1..] == a[1..] + b;
    if |a| > 1 {
      JoinConcat(a[1..], b, sep);
    }
  }

  lemma {:induction false} JoinOfChunks(gs: seq<seq<string>>)
    requires Groups(gs)
    ensures Join(Chunks(gs), "\n") == Join(Flatten(gs), "\n")
  {
    if |gs| == 1 {
      assert gs[1..] == [] && Chunks(gs) == [ChunkOf(gs[0])];
      assert Flatten(gs) == gs[0] + Flatten(gs[1..]) == gs[0];
    } else if |gs| > 1 {
      JoinOfChunks(gs[1..]);
      assert Flatten(gs[1..]) != [] by {
        assert Flatten(gs[1..]) == gs[1] + Flatten(gs[1..][1..]);
      }
      JoinConcat(gs[0], Flatten(gs[1..]), "\n");
      ChunksAt(gs, 0);
      ChunksAt(gs[1..], 0);
    }
  }

  /** When no line is blank and every line fits, joining the chunks with newlines
      gives the joined lines back. */
  lemma JoiningRestores(chunks: seq<string>, lines: seq<string>, limit: nat)
    requires IsSplitting(chunks, lines, limit) && PlainLines(lines, limit)
    ensures Join(chunks, "\n") == Join(lines, "\n")
  {
    var gs, cuts :| IsLayout(gs, cuts, lines, limit) && chunks == Chunks(gs);
    CutsOfPlainLines(cuts, lines, limit);
    NothingDropped(cuts, lines, limit);
    JoinOfChunks(gs);
  }

  // ---- No cut does better ----

  /** Texts without newline are recovered from their joined form. */
  lemma {:induction false} JoinInjective(a: seq<string>, b: seq<string>)
    requires (forall i :: 0 <= i < |a| ==> '\n' !in a[i]) && (forall i :: 0 <= i < |b| ==> '\n' !in b[i])
    requires Join(a, "\n") == Join(b, "\n")
    ensures a == b || (a == [] && b == [""]) || (a == [""] && b == [])
  {
    if a != [] && b != [] {
      FirstJoined(a);
      FirstJoined(b);
      if |a| > 1 && |b| > 1 {
        JoinInjective(a[1..], b[1..]);
        assert a == [a[0]] + a[1..] && b == [b[0]] + b[1..];
      } else {
        assert a == [a[0]] && b == [b[0]];
      }
    } else if a != [] {
      FirstJoined(a);
      assert a == [a[0]];
    } else if b != [] {
      FirstJoined(b);
      assert b == [b[0]];
    }
  }

  /** The first newline of a joined text ends its first part. */
  lemma FirstJoined(a: seq<string>)
    requires a != [] && '\n' !in a[0]
    ensures var j := Join(a, "\n"); var k := IndexOf(j, '\n');
            && j[..k] == a[0]
            && (|a| == 1 <==> k == |j|)
            && (|a| > 1 ==> j[k + 1..] == Join(a[1..], "\n"))
  {
    if |a| == 1 {
      assert Join(a, "\n") == a[0];
      assert forall i :: 0 <= i < |a[0]| ==> a[0][i] in a[0];
    } else {
      assert Join(a, "\n") == a[0] + ['\n'] + Join(a[1..], "\n");
      SplitAtFirst(a[0], '\n', Join(a[1..], "\n"));
    }
  }

  ghost predicate AllLinesFit(lines: seq<string>, limit: nat) {
    forall i :: 0 <= i < |lines| ==> Units(lines[i]) <= limit
  }

  /** Each blank line meets an open chunk that can still take its newline. */
  ghost predicate BlanksAreHeld(lines: seq<string>, limit: nat) {
    forall i :: 0 <= i < |lines| && lines[i] == "" ==> 0 < OpenAfter(lines[..i], limit) < limit
  }

  lemma DroppedIff(lines: seq<string>, line: string, limit: nat)
    ensures Dropped(lines, line, limit) <==> line == "" && !(0 < OpenAfter(lines, limit) < limit)
  {
  }

  lemma BlanksSnoc(front: seq<string>, line: string, limit: nat)
    ensures BlanksAreHeld(front + [line], limit) <==> BlanksAreHeld(front, limit) && !Dropped(front, line, limit)
  {
    var lines, n := front + [line], |front|;
    assert forall i :: 0 <= i <= n ==> lines[..i] == front[..i];
    assert front[..n] == front && lines[n] == line;
  }

  /** Lines that fit are all placed exactly when no blank one is dropped. */
  lemma {:induction false} PlacedFittingLines(cuts: seq<seq<string>>, lines: seq<string>, limit: nat)
    requires AreCuts(cuts, lines, limit) && AllLinesFit(lines, limit)
    ensures |Placed(cuts, lines, limit)| <= |lines|
    ensures Placed(cuts, lines, limit) == lines <==> BlanksAreHeld(lines, limit)
  {
    if lines != [] {
      var n := |lines| - 1;
      var front, line := lines[..n], lines[n];
      PlacedFittingLines(cuts[..n], front, limit);
      BlanksSnoc(front, line, limit);
      assert IsCut(cuts[n], line, limit) && lines == front + [line];
      SameFront(Placed(cuts[..n], front, limit), front, line);
    }
  }

  lemma SameFront<T>(a: seq<T>, b: seq<T>, x: T)
    ensures a + [x] == b + [x] <==> a == b
  {
    assert (a + [x])[..|a|] == a && (b + [x])[..|b|] == b;
  }

  lemma PiecesFit(gs: seq<seq<string>>, limit: nat)
    requires GroupsOk(gs, limit)
    ensures AllLinesFit(Flatten(gs), limit)
    ensures forall i :: 0 <= i < |Flatten(gs)| ==> '\n' !in Flatten(gs)[i]
  {
    forall i | 0 <= i < |Flatten(gs)|
      ensures '\n' !in Flatten(gs)[i] && Units(Flatten(gs)[i]) <= limit
    {
      var k := MemberOfFlatten(gs, Flatten(gs)[i]);
      assert GroupOk(gs[k], limit);
      PieceFits(gs[k], Flatten(gs)[i]);
    }
  }

  /** Joining the chunks with newlines gives the joined lines back exactly when every
      line fits and each blank line meets an open chunk shorter than the limit. (A text
      that is one blank line is the exception: nothing is sent, and nothing is what it
      joins to.) */
  lemma JoiningRestoresIff(chunks: seq<string>, lines: seq<string>, limit: nat)
    requires IsSplitting(chunks, lines, limit) && forall i :: 0 <= i < |lines| ==> '\n' !in lines[i]
    ensures Join(chunks, "\n") == Join(lines, "\n") <==>
            lines == [""] || (AllLinesFit(lines, limit) && BlanksAreHeld(lines, limit))
  {
    var gs, cuts :| IsLayout(gs, cuts, lines, limit) && chunks == Chunks(gs);
    FullIsFilled(gs, limit);
    JoinOfChunks(gs);
    PiecesFit(gs, limit);
    if Join(chunks, "\n") == Join(lines, "\n") {
      JoinInjective(Flatten(gs), lines);
    }
    if AllLinesFit(lines, limit) {
      PlacedFittingLines(cuts, lines, limit);
    }
    if lines == [""] {
      assert Placed(cuts[..0], lines[..0], limit) == [];
      DroppedIff(lines[..0], lines[0], limit);
    }
  }

  lemma PieceFits(g: seq<string>, p: string)
    requires p in g
    ensures Units(p) <= Cost(g, Units, 1)
  {
    var i :| 0 <= i < |g| && g[i] == p;
    StretchCost(g[..i], [p], g[i + 1..], Units, 1);
    assert g[..i] + [p] + g[i + 1..] == g;
    assert Sum([p][1..], Units) == 0;
  }

  lemma FullIsFilled(gs: seq<seq<string>>, limit: nat)
    requires GroupsOk(gs, limit)
    ensures Groups(gs) && Filled(gs, Units, 1, limit)
  {
    forall k | 0 <= k < |gs|
      ensures gs[k] != []
      ensures k < |gs| - 1 ==> FullBefore(gs[k], gs[k + 1][0], limit)
    {
      assert GroupOk(gs[k], limit);
    }
  }

  /** When no line is blank and every line fits, no order-preserving split at line
      breaks into messages within the limit has fewer of them. */
  lemma FewestChunks(chunks: seq<string>, lines: seq<string>, limit: nat, other: seq<seq<string>>)
    requires IsSplitting(chunks, lines, limit) && PlainLines(lines, limit)
    requires Groups(other) && Flatten(other) == lines
    requires forall k :: 0 <= k < |other| ==> Units(ChunkOf(other[k])) <= limit
    ensures |chunks| <= |other|
  {
    var gs, cuts :| IsLayout(gs, cuts, lines, limit) && chunks == Chunks(gs);
    CutsOfPlainLines(cuts, lines, limit);
    NothingDropped(cuts, lines, limit);
    FullIsFilled(gs, limit);
    forall k | 0 <= k < |other|
      ensures Cost(other[k], Units, 1) <= limit
    {
      UnitsOfChunk(other[k]);
    }
    FilledIsFewest(gs, other, Units, 1, limit);
    ChunksAt(gs, 0);
  }

  /** A text that is one overlong line goes out in the fewest pieces, of whole code
      points, that the limit allows. */
  lemma OverlongLineFewestPieces(chunks: seq<string>, line: string, limit: nat, other: seq<string>)
    requires IsSplitting(chunks, [line], limit) && Units(line) > limit
    requires Groups(other) && Flatten(other) == line
    requires forall k :: 0 <= k < |other| ==> Units(other[k]) <= limit
    ensures |chunks| <= |other|
  {
    var gs, cuts :| IsLayout(gs, cuts, [line], limit) && chunks == Chunks(gs);
    OneLineLayout(gs, cuts, line, limit);
    forall k | 0 <= k < |other|
      ensures Cost(other[k], CharUnits, 0) <= limit
    {
      CostOfChars(other[k]);
    }
    FilledIsFewest(cuts[0], other, CharUnits, 0, limit);
    GroupsAtMost(gs);
    ChunksAt(gs, 0);
  }

  lemma OneLineLayout(gs: seq<seq<string>>, cuts: seq<seq<string>>, line: string, limit: nat)
    requires IsLayout(gs, cuts, [line], limit) && Units(line) > limit
    ensures IsCut(cuts[0], line, limit) && Groups(gs) && Flatten(gs) == cuts[0]
  {
    var lines := [line];
    assert IsCut(cuts[0], lines[0], limit);
    assert cuts[1..] == [] && Flatten(cuts) == cuts[0] + Flatten(cuts[1..]) == cuts[0];
    NothingDropped(cuts, lines, limit);
    FullIsFilled(gs, limit);
  }

  lemma {:induction false} GroupsAtMost<T>(gs: seq<seq<T>>)
    requires Groups(gs)
    ensures |gs| <= |Flatten(gs)|
  {
    if gs != [] {
      GroupsAtMost(gs[1..]);
    }
  }

  // ---- The description leaves no choice ----

  lemma CutIsUnique(a: seq<string>, b: seq<string>, line: string, limit: nat)
    requires IsCut(a, line, limit) && IsCut(b, line, limit)
    ensures a == b
  {
    if Units(line) > limit {
      FilledIsUnique(a, b, CharUnits, 0, limit);
    }
  }

  lemma LayoutIsFilled(gs: seq<seq<string>>, limit: nat)
    requires GroupsOk(gs, limit)
    ensures Groups(gs) && Filled(gs, Units, 1, limit) && Within(gs, Units, 1, limit)
  {
    FullIsFilled(gs, limit);
    forall k | 0 <= k < |gs|
      ensures Cost(gs[k], Units, 1) <= limit
    {
      assert GroupOk(gs[k], limit);
    }
  }

  /** A text has only one splitting. */
  lemma SplittingIsUnique(a: seq<string>, b: seq<string>, lines: seq<string>, limit: nat)
    requires IsSplitting(a, lines, limit) && IsSplitting(b, lines, limit)
    ensures a == b
  {
    var gs, cuts :| IsLayout(gs, cuts, lines, limit) && a == Chunks(gs);
    var gs', cuts' :| IsLayout(gs', cuts', lines, limit) && b == Chunks(gs');
    forall i | 0 <= i < |lines|
      ensures cuts[i] == cuts'[i]
    {
      CutIsUnique(cuts[i], cuts'[i], lines[i], limit);
    }
    assert cuts == cuts';
    LayoutIsFilled(gs, limit);
    LayoutIsFilled(gs', limit);
    FilledIsUnique(gs, gs', Units, 1, limit);
  }

  // ---- Neighbours and the number of chunks ----

  /** Two adjacent chunks total at least the limit. */
  lemma AdjacentChunksAreFull(chunks: seq<string>, lines: seq<string>, limit: nat, k: nat)
    requires IsSplitting(chunks, lines, limit) && k < |chunks| - 1
    ensures Units(chunks[k]) + Units(chunks[k + 1]) >= limit
  {
    var gs, cuts :| IsLayout(gs, cuts, lines, limit) && chunks == Chunks(gs);
    ChunksAt(gs, k);
    ChunksAt(gs, k + 1);
    OpenChunk(gs[k], limit);
    OpenChunk(gs[k + 1], limit);
    assert FullBefore(gs[k], gs[k + 1][0], limit);
    StretchCost([], [gs[k + 1][0]], gs[k + 1][1..], Units, 1);
    assert [] + [gs[k + 1][0]] + gs[k + 1][1..] == gs[k + 1];
    CostOfSingle(gs[k + 1][0]);
  }

  lemma {:induction false} PairsWeigh(chunks: seq<string>, limit: nat)
    requires forall k :: 0 <= k < |chunks| - 1 ==> Units(chunks[k]) + Units(chunks[k + 1]) >= limit
    ensures (|chunks| / 2) * limit <= TotalUnits(chunks)
    decreases |chunks|
  {
    if |chunks| >= 2 {
      PairsWeigh(chunks[2..], limit);
      assert chunks[1..][1..] == chunks[2..] && chunks[1..][0] == chunks[1];
      assert TotalUnits(chunks[1..]) == Units(chunks[1]) + TotalUnits(chunks[2..]);
      assert TotalUnits(chunks) == Units(chunks[0]) + Units(chunks[1]) + TotalUnits(chunks[2..]);
      assert |chunks| / 2 == |chunks[2..]| / 2 + 1;
      assert (|chunks[2..]| / 2 + 1) * limit == (|chunks[2..]| / 2) * limit + limit;
    }
  }

  lemma {:induction false} LinesWeighNoMore(text: string)
    requires text != ""
    ensures Allowance(Lines(text)) <= Units(text)
  {
    var k := IndexOf(text, '\n');
    if k == |text| {
      assert Lines(text) == [text] && [text][1..] == [];
      assert TotalUnits([text]) == Units(text) + TotalUnits([]);
    } else {
      var head, tail := text[..k], text[k + 1..];
      assert text == head + ("\n" + tail);
      UnitsConcat(head, "\n" + tail);
      UnitsConcat("\n", tail);
      UnitsOne('\n');
      assert head == StripCr(head) + head[|StripCr(head)|..];
      UnitsConcat(StripCr(head), head[|StripCr(head)|..]);
      assert Lines(text)[1..] == Lines(tail);
      if tail != "" {
        LinesWeighNoMore(tail);
        assert Lines(tail) != [];
      } else {
        assert Lines(text) == [StripCr(head)];
        assert TotalUnits(Lines(text)) == Units(StripCr(head)) + TotalUnits(Lines(text)[1..]);
      }
    }
  }

  /** So the number of messages is bounded by twice the text's length over the limit. */
  lemma ChunkCountBound(chunks: seq<string>, text: string, limit: nat)
    requires text != "" && IsSplitting(chunks, Lines(text), limit)
    ensures (|chunks| / 2) * limit <= Units(text)
  {
    forall k | 0 <= k < |chunks| - 1
      ensures Units(chunks[k]) + Units(chunks[k + 1]) >= limit
    {
      AdjacentChunksAreFull(chunks, Lines(text), limit, k);
    }
    PairsWeigh(chunks, limit);
    LinesWeighNoMore(text);
  }
}
