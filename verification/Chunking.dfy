/** Splitting a long text into messages. Characters are Unicode scalar values, so
    no chunk can cut a code point; lengths are counted in UTF-16 units. */
module Chunking {
  import opened Basics
  import opened Greedy

  function CharUnits(c: char): nat {
    if c as int >= 0x1_0000 then 2 else 1
  }

  function Units(s: string): nat {
    Sum(s, CharUnits)
  }

  lemma UnitsConcat(a: string, b: string)
    ensures Units(a + b) == Units(a) + Units(b)
  {
    SumConcat(a, b, CharUnits);
  }

  lemma UnitsOne(c: char)
    ensures Units([c]) == CharUnits(c)
  {
    assert Sum([c][1..], CharUnits) == 0;
  }

  function ChunkOf(group: seq<string>): string {
    Join(group, "\n")
  }

  /** The UTF-16 length of a chunk is the cost of its pieces with one unit per join. */
  lemma {:induction false} UnitsOfChunk(g: seq<string>)
    requires g != []
    ensures Units(ChunkOf(g)) == Cost(g, Units, 1)
  {
    if |g| == 1 {
      assert Sum(g[1..], Units) == 0;
    } else {
      UnitsOfChunk(g[1..]);
      UnitsConcat(g[0] + "\n", ChunkOf(g[1..]));
      UnitsConcat(g[0], "\n");
      UnitsOne('\n');
    }
  }

  /** Each character by itself is within the limit: at 2 or more every one is, at 1
      those of the basic plane are, at 0 none. */
  predicate Holds(s: string, limit: nat) {
    forall i :: 0 <= i < |s| ==> CharUnits(s[i]) <= limit
  }

  predicate Roomy(lines: seq<string>, limit: nat) {
    forall k :: 0 <= k < |lines| ==> Holds(lines[k], limit)
  }

  // ---- What a splitting is ----

  /** The pieces a line is sent in: itself when it fits, else filled cuts of it. */
  ghost predicate IsCut(pieces: seq<string>, line: string, limit: nat) {
    if Units(line) <= limit then pieces == [line]
    else
      && Groups(pieces) && Flatten(pieces) == line
      && Within(pieces, CharUnits, 0, limit) && Filled(pieces, CharUnits, 0, limit)
  }

  ghost predicate AreCuts(cuts: seq<seq<string>>, lines: seq<string>, limit: nat) {
    |cuts| == |lines| && forall i :: 0 <= i < |lines| ==> IsCut(cuts[i], lines[i], limit)
  }

  ghost predicate GroupOk(g: seq<string>, limit: nat) {
    g != [] && g[0] != "" && Cost(g, Units, 1) <= limit && forall i :: 0 <= i < |g| ==> '\n' !in g[i]
  }

  /** Consecutive groups: the next group's first piece would not have fitted. */
  ghost predicate FullBefore(g: seq<string>, next: string, limit: nat) {
    Cost(g, Units, 1) + 1 + Units(next) > limit
  }

  ghost predicate GroupsOk(gs: seq<seq<string>>, limit: nat) {
    && (forall k :: 0 <= k < |gs| ==> GroupOk(gs[k], limit))
    && (forall k :: 0 <= k < |gs| - 1 ==> FullBefore(gs[k], gs[k + 1][0], limit))
  }

  function TotalUnits(parts: seq<string>): nat {
    Sum(parts, Units)
  }

  /** The length of the last piece of an overlong line that is filled piece by piece. */
  function CutRest(line: string, limit: nat): nat {
    if line == "" then 0 else
      var before, units := CutRest(line[..|line| - 1], limit), CharUnits(Last(line));
      if before + units > limit then units else before + units
  }

  /** The length of the chunk that is open once these lines have been read; 0 for none. */
  function OpenAfter(lines: seq<string>, limit: nat): nat {
    if lines == [] then 0 else
      var front, line := lines[..|lines| - 1], Last(lines);
      if Units(line) > limit then CutRest(line, limit)
      else if Settled(OpenAfter(front, limit), line, limit) == 0 then Units(line)
      else Settled(OpenAfter(front, limit), line, limit) + 1 + Units(line)
  }

  /** What is still open for a line: a chunk it does not fit behind is closed first. */
  function Settled(held: nat, line: string, limit: nat): nat {
    if held + Units(line) + 1 > limit then 0 else held
  }

  /** A blank line that meets no open chunk leaves no trace. */
  predicate Dropped(lines: seq<string>, line: string, limit: nat) {
    line == "" && Settled(OpenAfter(lines, limit), line, limit) == 0
  }

  /** The pieces that are sent, in order, when these are the pieces of each line. */
  function Placed(cuts: seq<seq<string>>, lines: seq<string>, limit: nat): seq<string>
    requires |cuts| == |lines|
  {
    if lines == [] then [] else
      var n := |lines| - 1;
      Placed(cuts[..n], lines[..n], limit) + if Dropped(lines[..n], lines[n], limit) then [] else cuts[n]
  }

  /** `gs` are the chunks' pieces and `cuts` the lines' pieces: in order they are
      the same pieces, but for the dropped blank lines. */
  ghost predicate IsLayout(gs: seq<seq<string>>, cuts: seq<seq<string>>, lines: seq<string>, limit: nat) {
    && GroupsOk(gs, limit)
    && AreCuts(cuts, lines, limit)
    && Flatten(gs) == Placed(cuts, lines, limit)
  }

  function Chunks(gs: seq<seq<string>>): seq<string> {
    if gs == [] then [] else [ChunkOf(gs[0])] + Chunks(gs[1..])
  }

  lemma {:induction false} ChunksSnoc(gs: seq<seq<string>>, g: seq<string>)
    ensures Chunks(gs + [g]) == Chunks(gs) + [ChunkOf(g)]
  {
    if gs == [] {
      assert gs + [g] == [g] && [g][1..] == [];
    } else {
      assert (gs + [g])[1..] == gs[1..] + [g];
      ChunksSnoc(gs[1..], g);
    }
  }

  lemma {:induction false} ChunksAt(gs: seq<seq<string>>, k: nat)
    ensures |Chunks(gs)| == |gs|
    ensures k < |gs| ==> Chunks(gs)[k] == ChunkOf(gs[k])
  {
    if gs != [] {
      ChunksAt(gs[1..], if k > 0 then k - 1 else 0);
    }
  }

  // ---- The algorithm ----

  /** What the groups and the cuts agree on. */
  ghost predicate SamePieces(pieces: seq<string>, cuts: seq<seq<string>>, lines: seq<string>, limit: nat) {
    |cuts| == |lines| && pieces == Placed(cuts, lines, limit)
  }

  /** State while line `next` is being placed: closed groups, the open group, and
      the pieces of the lines already read. Between two lines `next` is "". */
  ghost predicate Filling(gs: seq<seq<string>>, open: seq<string>, cuts: seq<seq<string>>, lines: seq<string>,
                          next: string, limit: nat) {
    && GroupsOk(gs, limit)
    && (open != [] ==> GroupOk(open, limit))
    && (gs != [] ==> FullBefore(Last(gs), if open == [] then next else open[0], limit))
    && AreCuts(cuts, lines, limit)
    && SamePieces(Flatten(gs) + open, cuts, lines, limit)
  }

  lemma CloseGroup(gs: seq<seq<string>>, open: seq<string>, cuts: seq<seq<string>>, lines: seq<string>, line: string,
                   limit: nat)
    requires Filling(gs, open, cuts, lines, "", limit)
    requires open != [] && FullBefore(open, line, limit)
    ensures Filling(gs + [open], [], cuts, lines, line, limit)
  {
    FlattenSnoc(gs, open);
    assert Flatten(gs + [open]) + [] == Flatten(gs) + open;
  }

  lemma SamePiecesExtend(pieces: seq<string>, cuts: seq<seq<string>>, lines: seq<string>, line: string,
                         cut: seq<string>, limit: nat)
    requires SamePieces(pieces, cuts, lines, limit)
    ensures SamePieces(pieces + if Dropped(lines, line, limit) then [] else cut, cuts + [cut], lines + [line], limit)
  {
    var n := |lines|;
    assert (cuts + [cut])[..n] == cuts && (lines + [line])[..n] == lines;
  }

  /** The open group after a line that fits: a blank line does not start one. */
  function Opened(open: seq<string>, line: string): seq<string> {
    if open == [] && line == "" then [] else open + [line]
  }

  lemma LinePieces(f: seq<string>, open: seq<string>, cuts: seq<seq<string>>, lines: seq<string>, line: string,
                   limit: nat)
    requires SamePieces(f + open, cuts, lines, limit)
    requires open == [] <==> Settled(OpenAfter(lines, limit), line, limit) == 0
    ensures SamePieces(f + Opened(open, line), cuts + [[line]], lines + [line], limit)
  {
    SamePiecesExtend(f + open, cuts, lines, line, [line], limit);
    assert f + open + [] == f + open;
    assert f + open + [line] == f + (open + [line]);
  }

  lemma LineGroup(open: seq<string>, line: string, limit: nat)
    requires open != [] ==> GroupOk(open, limit) && !FullBefore(open, line, limit)
    requires Units(line) <= limit && '\n' !in line
    ensures Opened(open, line) != [] ==> GroupOk(Opened(open, line), limit)
    ensures open != [] ==> Opened(open, line)[0] == open[0]
  {
    SumConcat(open, [line], Units);
    assert Sum([line][1..], Units) == 0;
  }

  /** A line that fits joins the open group; a blank one does not start a group. */
  lemma PlaceLine(gs: seq<seq<string>>, open: seq<string>, cuts: seq<seq<string>>, lines: seq<string>, line: string,
                  limit: nat)
    requires Filling(gs, open, cuts, lines, line, limit) && Units(line) <= limit && '\n' !in line
    requires open != [] ==> !FullBefore(open, line, limit)
    requires open == [] <==> Settled(OpenAfter(lines, limit), line, limit) == 0
    ensures Filling(gs, Opened(open, line), cuts + [[line]], lines + [line], "", limit)
  {
    LinePieces(Flatten(gs), open, cuts, lines, line, limit);
    LineGroup(open, line, limit);
    CutsSnoc(cuts, lines, [line], line, limit);
  }

  function Singles(pieces: seq<string>): seq<seq<string>> {
    if pieces == [] then [] else [[pieces[0]]] + Singles(pieces[1..])
  }

  lemma {:induction false} SinglesShape(pieces: seq<string>)
    ensures |Singles(pieces)| == |pieces| && Flatten(Singles(pieces)) == pieces
    ensures forall k :: 0 <= k < |pieces| ==> Singles(pieces)[k] == [pieces[k]]
  {
    if pieces != [] {
      var rest := Singles(pieces[1..]);
      SinglesShape(pieces[1..]);
      assert ([[pieces[0]]] + rest)[1..] == rest && ([[pieces[0]]] + rest)[0] == [pieces[0]];
      assert Flatten(Singles(pieces)) == [pieces[0]] + Flatten(rest);
      assert forall k :: 1 <= k < |pieces| ==> pieces[1..][k - 1] == pieces[k] && Singles(pieces)[k] == rest[k - 1];
    }
  }

  lemma {:induction false} SinglesSnoc(pieces: seq<string>, p: string)
    ensures Singles(pieces + [p]) == Singles(pieces) + [[p]]
  {
    if pieces == [] {
      assert pieces + [p] == [p] && [p][1..] == [];
    } else {
      assert (pieces + [p])[1..] == pieces[1..] + [p];
      SinglesSnoc(pieces[1..], p);
    }
  }

  /** State inside an overlong line: the pieces cut so far and the one being filled. */
  ghost predicate Cutting(pieces: seq<string>, current: string, done: string, limit: nat) {
    && Groups(pieces) && Within(pieces, CharUnits, 0, limit) && Filled(pieces, CharUnits, 0, limit)
    && Flatten(pieces) + current == done
    && Units(current) <= limit
    && (current == "" ==> done == "")
    && (pieces != [] && current != "" ==> Units(Last(pieces)) + CharUnits(current[0]) > limit)
  }

  lemma CostOfChars(s: string)
    ensures Cost(s, CharUnits, 0) == Units(s)
  {
    assert 0 * (|s| - 1) == 0;
  }

  /** One more character of an overlong line. */
  lemma CutStep(pieces: seq<string>, current: string, done: string, c: char, limit: nat)
    requires CharUnits(c) <= limit && Cutting(pieces, current, done, limit)
    ensures Units(current) + CharUnits(c) <= limit ==> Cutting(pieces, current + [c], done + [c], limit)
    ensures Units(current) + CharUnits(c) > limit ==>
              current != "" && Cutting(pieces + [current], [c], done + [c], limit)
  {
    UnitsConcat(current, [c]);
    UnitsOne(c);
    CostOfChars(current);
    if pieces != [] {
      CostOfChars(Last(pieces));
    }
    FlattenSnoc(pieces, current);
    assert Flatten(pieces) + (current + [c]) == Flatten(pieces) + current + [c];
  }

  /** The last piece of an overlong line stays open. */
  lemma FinishCut(pieces: seq<string>, current: string, line: string, limit: nat)
    requires Cutting(pieces, current, line, limit) && Units(line) > limit
    ensures IsCut(pieces + [current], line, limit) && pieces != [] && current != ""
  {
    FlattenSnoc(pieces, current);
    CostOfChars(current);
    if pieces != [] {
      CostOfChars(Last(pieces));
    }
    assert pieces == [] ==> line == current;
  }

  lemma UnitsAtLeastFirst(s: string)
    requires s != ""
    ensures Units(s) >= CharUnits(s[0]) >= 1
  {
  }

  lemma CostOfSingle(p: string)
    ensures Cost([p], Units, 1) == Units(p)
  {
    assert Sum([p][1..], Units) == 0;
  }

  lemma {:induction false} NoNewlineInPieces(pieces: seq<string>, k: nat)
    requires k < |pieces| && '\n' !in Flatten(pieces)
    ensures '\n' !in pieces[k]
  {
    assert Flatten(pieces) == pieces[0] + Flatten(pieces[1..]);
    if k > 0 {
      assert forall c :: c in Flatten(pieces[1..]) ==> c in Flatten(pieces);
      NoNewlineInPieces(pieces[1..], k - 1);
    } else {
      assert forall c :: c in pieces[0] ==> c in Flatten(pieces);
    }
  }

  /** Two consecutive filled pieces, as groups of their own. */
  lemma PiecesAreFull(all: seq<string>, limit: nat, k: nat)
    requires Groups(all) && Filled(all, CharUnits, 0, limit) && k < |all| - 1
    ensures FullBefore([all[k]], all[k + 1], limit) && Units(all[k]) + 1 >= limit
  {
    CostOfSingle(all[k]);
    CostOfChars(all[k]);
    UnitsAtLeastFirst(all[k + 1]);
  }

  lemma PieceIsGroup(all: seq<string>, limit: nat, k: nat)
    requires Groups(all) && Within(all, CharUnits, 0, limit) && '\n' !in Flatten(all) && k < |all|
    ensures GroupOk([all[k]], limit)
  {
    CostOfSingle(all[k]);
    CostOfChars(all[k]);
    NoNewlineInPieces(all, k);
  }

  lemma CutGroupsOk(gs: seq<seq<string>>, all: seq<string>, limit: nat)
    requires GroupsOk(gs, limit) && Groups(all) && Within(all, CharUnits, 0, limit) && Filled(all, CharUnits, 0, limit)
    requires '\n' !in Flatten(all) && |all| > 1
    ensures GroupsOk(gs + Singles(all), limit)
  {
    SinglesShape(all);
    var gs' := gs + Singles(all);
    forall k | 0 <= k < |gs'|
      ensures GroupOk(gs'[k], limit)
    {
      if k >= |gs| {
        PieceIsGroup(all, limit, k - |gs|);
      }
    }
    forall k | 0 <= k < |gs'| - 1
      ensures FullBefore(gs'[k], gs'[k + 1][0], limit)
    {
      if k >= |gs| {
        PiecesAreFull(all, limit, k - |gs|);
      } else if k == |gs| - 1 {
        PiecesAreFull(all, limit, 0);
        UnitsAtLeastFirst(gs[k][0]);
      }
    }
  }

  lemma CutPieces(gs: seq<seq<string>>, cuts: seq<seq<string>>, lines: seq<string>,
                  pieces: seq<string>, current: string, line: string, limit: nat)
    requires SamePieces(Flatten(gs) + [], cuts, lines, limit) && line != ""
    ensures SamePieces(Flatten(gs + Singles(pieces)) + [current], cuts + [pieces + [current]], lines + [line], limit)
  {
    var f, last := Flatten(gs), [current];
    assert Flatten(gs + Singles(pieces)) == f + pieces by {
      FlattenAppend(gs, Singles(pieces));
      SinglesShape(pieces);
    }
    SamePiecesExtend(f + [], cuts, lines, line, pieces + last, limit);
    assert f + [] + (pieces + last) == f + pieces + last;
  }

  lemma OpenLast(gs: seq<seq<string>>, g: seq<string>, limit: nat)
    requires GroupsOk(gs + [g], limit)
    ensures GroupsOk(gs, limit) && GroupOk(g, limit)
    ensures gs != [] ==> FullBefore(Last(gs), g[0], limit)
  {
    var all := gs + [g];
    assert all[|gs|] == g && GroupOk(all[|gs|], limit);
    assert forall k :: 0 <= k < |gs| ==> all[k] == gs[k];
    if gs != [] {
      assert FullBefore(all[|gs| - 1], all[|gs|][0], limit);
    }
    forall k | 0 <= k < |gs|
      ensures GroupOk(gs[k], limit)
    {
      assert GroupOk(all[k], limit);
    }
    forall k | 0 <= k < |gs| - 1
      ensures FullBefore(gs[k], gs[k + 1][0], limit)
    {
      assert FullBefore(all[k], all[k + 1][0], limit);
    }
  }

  lemma SinglesOfCut(gs: seq<seq<string>>, pieces: seq<string>, current: string)
    ensures gs + Singles(pieces + [current]) == gs + Singles(pieces) + [[current]]
  {
    SinglesSnoc(pieces, current);
    var a, b := Singles(pieces), [[current]];
    assert gs + (a + b) == gs + a + b;
  }

  lemma OpenPieces(gs: seq<seq<string>>, pieces: seq<string>, current: string, line: string, limit: nat)
    requires GroupsOk(gs, limit) && '\n' !in line
    requires Units(line) > limit && IsCut(pieces + [current], line, limit) && pieces != []
    ensures GroupsOk(gs + Singles(pieces), limit) && GroupOk([current], limit)
    ensures FullBefore(Last(gs + Singles(pieces)), current, limit)
  {
    CutGroupsOk(gs, pieces + [current], limit);
    SinglesOfCut(gs, pieces, current);
    OpenLast(gs + Singles(pieces), [current], limit);
  }

  lemma CutsSnoc(cuts: seq<seq<string>>, lines: seq<string>, cut: seq<string>, line: string, limit: nat)
    requires AreCuts(cuts, lines, limit) && AreCuts([cut], [line], limit)
    ensures AreCuts(cuts + [cut], lines + [line], limit)
  {
  }

  /** The pieces of an overlong line become groups of their own, the last one open. */
  lemma PlaceCut(gs: seq<seq<string>>, cuts: seq<seq<string>>, lines: seq<string>,
                 pieces: seq<string>, current: string, line: string, limit: nat)
    requires Filling(gs, [], cuts, lines, line, limit) && '\n' !in line
    requires Units(line) > limit && IsCut(pieces + [current], line, limit) && pieces != []
    ensures Filling(gs + Singles(pieces), [current], cuts + [pieces + [current]], lines + [line], "", limit)
  {
    OpenPieces(gs, pieces, current, line, limit);
    assert Units("") == 0;
    CutPieces(gs, cuts, lines, pieces, current, line, limit);
    CutsSnoc(cuts, lines, pieces + [current], line, limit);
  }

  // ---- The code's own state ----

  ghost predicate Tracks(chunks: seq<string>, current: string, currentLen: nat, gs: seq<seq<string>>,
                         open: seq<string>) {
    && chunks == Chunks(gs)
    && current == ChunkOf(open)
    && currentLen == Units(current)
    && (open == [] <==> current == "")
  }

  lemma OpenChunk(open: seq<string>, limit: nat)
    requires open != [] && GroupOk(open, limit)
    ensures ChunkOf(open) != "" && Units(ChunkOf(open)) == Cost(open, Units, 1)
  {
    UnitsOfChunk(open);
    assert |open| > 1 ==> ChunkOf(open) == open[0] + "\n" + ChunkOf(open[1..]);
  }

  lemma TotalSnoc(chunks: seq<string>, c: string)
    ensures TotalUnits(chunks + [c]) == TotalUnits(chunks) + Units(c)
  {
    SumConcat(chunks, [c], Units);
    assert Sum([c][1..], Units) == 0;
  }

  /** A line adds its own length and at most one joining newline. */
  function Allowance(lines: seq<string>): nat {
    TotalUnits(lines) + if lines == [] then 0 else |lines| - 1
  }

  lemma AllowanceSnoc(lines: seq<string>, line: string)
    ensures Allowance(lines + [line]) == Allowance(lines) + Units(line) + if lines == [] then 0 else 1
  {
    TotalSnoc(lines, line);
  }

  /** What `ChunkText` promises of a non-empty text. */
  ghost predicate IsSplitting(chunks: seq<string>, lines: seq<string>, limit: nat) {
    && (exists gs, cuts :: IsLayout(gs, cuts, lines, limit) && chunks == Chunks(gs))
    && TotalUnits(chunks) <= Allowance(lines)
  }

  predicate InSome(chunks: seq<string>, current: string, c: char) {
    c in current || exists j :: 0 <= j < |chunks| && c in chunks[j]
  }

  /** Whatever the limit, no character of `s` is lost. */
  predicate Kept(s: string, chunks: seq<string>, current: string) {
    forall i :: 0 <= i < |s| ==> InSome(chunks, current, s[i])
  }

  lemma KeptFurther(s: string, chunks: seq<string>, current: string, chunks': seq<string>, current': string)
    requires Kept(s, chunks, current)
    requires chunks <= chunks' && (current <= current' || current in chunks'[|chunks|..])
    ensures Kept(s, chunks', current')
  {
    forall i | 0 <= i < |s|
      ensures InSome(chunks', current', s[i])
    {
      assert InSome(chunks, current, s[i]);
      if s[i] in current {
        if !(current <= current') {
          var j :| 0 <= j < |chunks'[|chunks|..]| && chunks'[|chunks|..][j] == current;
          assert chunks'[|chunks| + j] == current;
        }
      } else {
        var j :| 0 <= j < |chunks| && s[i] in chunks[j];
        assert chunks'[j] == chunks[j];
      }
    }
  }

  /** State of the character loop once `done` of the line has been read; `roomy` says
      that each character of the line is within the limit. */
  ghost predicate CutOk(roomy: bool, before: seq<string>, chunks: seq<string>, current: string, currentLen: nat,
                        pieces: seq<string>, done: string, limit: nat) {
    && chunks == before + pieces && Flatten(pieces) + current == done
    && (roomy ==>
          && Cutting(pieces, current, done, limit) && currentLen == Units(current) == CutRest(done, limit)
          && TotalUnits(chunks) + currentLen == TotalUnits(before) + Units(done))
  }

  lemma CutOne(roomy: bool, before: seq<string>, chunks: seq<string>, current: string, currentLen: nat,
               pieces: seq<string>, done: string, c: char, next: string, limit: nat)
    requires CutOk(roomy, before, chunks, current, currentLen, pieces, done, limit)
    requires next == done + [c] && (roomy ==> CharUnits(c) <= limit)
    ensures if currentLen + CharUnits(c) > limit
            then CutOk(roomy, before, chunks + [current], "" + [c], CharUnits(c), pieces + [current], next, limit)
            else CutOk(roomy, before, chunks, current + [c], currentLen + CharUnits(c), pieces, next, limit)
  {
    assert "" + [c] == [c];
    FlattenSnoc(pieces, current);
    assert Flatten(pieces) + (current + [c]) == Flatten(pieces) + current + [c];
    assert next[..|next| - 1] == done && Last(next) == c;
    if roomy {
      CutStep(pieces, current, done, c, limit);
      UnitsConcat(done, [c]);
      UnitsConcat(current, [c]);
      UnitsOne(c);
      TotalSnoc(chunks, current);
    }
  }

  /** The line has been cut: no character is lost, and when each is within the limit
      the pieces are the filled ones. */
  ghost predicate CutDone(before: seq<string>, chunks: seq<string>, current: string, currentLen: nat,
                          pieces: seq<string>,
                          line: string, limit: nat) {
    && before <= chunks && Kept(line, chunks, current)
    && (Holds(line, limit) ==>
          && IsCut(pieces + [current], line, limit) && pieces != []
          && current != "" && currentLen == Units(current) == CutRest(line, limit)
          && chunks == before + pieces
          && TotalUnits(chunks) + currentLen == TotalUnits(before) + Units(line))
  }

  lemma CutBegins(roomy: bool, before: seq<string>, limit: nat)
    ensures CutOk(roomy, before, before, "", 0, [], "", limit)
  {
    assert before + [] == before;
  }

  lemma CutEnds(before: seq<string>, chunks: seq<string>, current: string, currentLen: nat, pieces: seq<string>,
                line: string, limit: nat)
    requires CutOk(Holds(line, limit), before, chunks, current, currentLen, pieces, line, limit) && Units(line) > limit
    ensures CutDone(before, chunks, current, currentLen, pieces, line, limit)
  {
    KeptInPieces(before, pieces, current);
    if Holds(line, limit) {
      FinishCut(pieces, current, line, limit);
    }
  }

  lemma KeptInPieces(before: seq<string>, pieces: seq<string>, current: string)
    ensures Kept(Flatten(pieces) + current, before + pieces, current)
  {
    var s, chunks := Flatten(pieces) + current, before + pieces;
    forall i | 0 <= i < |s|
      ensures InSome(chunks, current, s[i])
    {
      if i < |Flatten(pieces)| {
        var k := MemberOfFlatten(pieces, s[i]);
        assert chunks[|before| + k] == pieces[k];
      }
    }
  }

  /** The character loop of `chunk_text`: an overlong line goes out piece by piece,
      and its last piece is left open. */
  method CutLine(line: string, maxLen: nat, before: seq<string>)
    returns (chunks: seq<string>, current: string, currentLen: nat, ghost pieces: seq<string>)
    requires Units(line) > maxLen
    ensures before <= chunks && Kept(line, chunks, current)
    ensures Holds(line, maxLen) ==> current != "" && currentLen == Units(current)
    ensures CutDone(before, chunks, current, currentLen, pieces, line, maxLen)
  {
    ghost var roomy := Holds(line, maxLen);
    chunks, current, currentLen, pieces := before, "", 0, [];
    CutBegins(roomy, before, maxLen);
    for j := 0 to |line|
      invariant CutOk(roomy, before, chunks, current, currentLen, pieces, line[..j], maxLen)
    {
      var c := line[j];
      var units := CharUnits(c);
      CutOne(roomy, before, chunks, current, currentLen, pieces, line[..j], c, line[..j + 1], maxLen);
      if currentLen + units > maxLen {
        chunks := chunks + [current];
        pieces := pieces + [current];
        current, currentLen := "", 0;
      }
      current := current + [c];
      currentLen := currentLen + units;
    }
    assert line[..|line|] == line;
    CutEnds(before, chunks, current, currentLen, pieces, line, maxLen);
  }

  lemma {:induction false} ChunksAppend(a: seq<seq<string>>, b: seq<seq<string>>)
    ensures Chunks(a + b) == Chunks(a) + Chunks(b)
  {
    if a == [] {
      assert a + b == b;
    } else {
      assert (a + b)[1..] == a[1..] + b;
      ChunksAppend(a[1..], b);
    }
  }

  lemma {:induction false} ChunksOfSingles(pieces: seq<string>)
    ensures Chunks(Singles(pieces)) == pieces
  {
    if pieces != [] {
      ChunksOfSingles(pieces[1..]);
    }
  }

  lemma JoinLine(open: seq<string>, current: string, line: string)
    requires current == ChunkOf(open) && (open == [] <==> current == "")
    ensures open != [] ==> ChunkOf(open + [line]) == current + "\n" + line
    ensures open != [] ==> Units(current + "\n" + line) == Units(current) + 1 + Units(line)
    ensures ChunkOf([line]) == line && "" + line == line
  {
    if open != [] {
      JoinSnoc(open, "\n", line);
      UnitsConcat(current + "\n", line);
      UnitsConcat(current, "\n");
      UnitsOne('\n');
    }
  }

  ghost predicate KeptLines(lines: seq<string>, chunks: seq<string>, current: string) {
    forall k :: 0 <= k < |lines| ==> Kept(lines[k], chunks, current)
  }

  lemma KeptLinesFurther(lines: seq<string>, chunks: seq<string>, current: string, chunks': seq<string>,
                         current': string)
    requires KeptLines(lines, chunks, current)
    requires chunks <= chunks' && (current <= current' || current in chunks'[|chunks|..])
    ensures KeptLines(lines, chunks', current')
  {
    forall k | 0 <= k < |lines|
      ensures Kept(lines[k], chunks', current')
    {
      KeptFurther(lines[k], chunks, current, chunks', current');
    }
  }

  /** The whole loop state; `roomy` says that each character of the text's lines is
      within the limit, `held` how long the open chunk should be. */
  ghost predicate LoopOk(roomy: bool, chunks: seq<string>, current: string, currentLen: nat, gs: seq<seq<string>>,
                         open: seq<string>, cuts: seq<seq<string>>, lines: seq<string>, next: string, limit: nat,
                         held: nat) {
    && KeptLines(lines, chunks, current)
    && (roomy ==>
          && Tracks(chunks, current, currentLen, gs, open) && currentLen == held
          && Filling(gs, open, cuts, lines, next, limit)
          && TotalUnits(chunks) + currentLen <= Allowance(lines) && (lines == [] ==> open == []))
  }

  lemma OpenIsLast(gs: seq<seq<string>>, open: seq<string>, cuts: seq<seq<string>>, lines: seq<string>, limit: nat)
    requires Filling(gs, open, cuts, lines, "", limit) && open != []
    ensures IsLayout(gs + [open], cuts, lines, limit)
  {
    FlattenSnoc(gs, open);
    assert Flatten(gs + [open]) + [] == Flatten(gs) + open;
  }

  lemma FinishText(roomy: bool, chunks: seq<string>, current: string, currentLen: nat, gs: seq<seq<string>>,
                   open: seq<string>, cuts: seq<seq<string>>, lines: seq<string>, limit: nat)
    requires LoopOk(roomy, chunks, current, currentLen, gs, open, cuts, lines, "", limit, OpenAfter(lines, limit))
    ensures roomy ==> IsSplitting(if current == "" then chunks else chunks + [current], lines, limit)
    ensures KeptLines(lines, if current == "" then chunks else chunks + [current], "")
  {
    KeptLinesFurther(lines, chunks, current, if current == "" then chunks else chunks + [current], "");
    if roomy && open == [] {
      assert Flatten(gs) + open == Flatten(gs);
      assert IsLayout(gs, cuts, lines, limit);
    } else if roomy {
      OpenIsLast(gs, open, cuts, lines, limit);
      ChunksSnoc(gs, open);
      TotalSnoc(chunks, current);
    }
  }

  /** The open chunk is closed when the next line does not fit behind it. */
  lemma CloseOrKeep(roomy: bool, chunks: seq<string>, current: string, currentLen: nat, gs: seq<seq<string>>,
                    open: seq<string>, cuts: seq<seq<string>>, lines: seq<string>, line: string, limit: nat)
    requires LoopOk(roomy, chunks, current, currentLen, gs, open, cuts, lines, "", limit, OpenAfter(lines, limit))
    ensures var held := Settled(OpenAfter(lines, limit), line, limit);
            if currentLen + Units(line) + 1 > limit && current != ""
            then LoopOk(roomy, chunks + [current], "", 0, gs + [open], [], cuts, lines, line, limit, held)
            else LoopOk(roomy, chunks, current, currentLen, gs, open, cuts, lines, line, limit, held)
  {
    KeptLinesFurther(lines, chunks, current, chunks + [current], "");
    assert Units("") == 0;
    if roomy && open != [] {
      OpenChunk(open, limit);
    }
    if roomy && currentLen + Units(line) + 1 > limit && current != "" {
      CloseGroup(gs, open, cuts, lines, line, limit);
      ChunksSnoc(gs, open);
      TotalSnoc(chunks, current);
    }
  }

  lemma OpenAfterSnoc(lines: seq<string>, line: string, limit: nat)
    ensures OpenAfter(lines + [line], limit) ==
            var held := Settled(OpenAfter(lines, limit), line, limit);
            if Units(line) > limit then CutRest(line, limit)
            else if held == 0 then Units(line) else held + 1 + Units(line)
  {
    assert (lines + [line])[..|lines|] == lines;
  }

  lemma AfterCut(roomy: bool, before: seq<string>, chunks: seq<string>, current: string, currentLen: nat,
                 gs: seq<seq<string>>, cuts: seq<seq<string>>, lines: seq<string>, line: string,
                 pieces: seq<string>, limit: nat, held: nat)
    requires LoopOk(roomy, before, "", 0, gs, [], cuts, lines, line, limit, held)
    requires Units(line) > limit && '\n' !in line
    requires CutDone(before, chunks, current, currentLen, pieces, line, limit) && (roomy ==> Holds(line, limit))
    ensures LoopOk(roomy, chunks, current, currentLen, gs + Singles(pieces), [current], cuts + [pieces + [current]],
                   lines + [line], "", limit, OpenAfter(lines + [line], limit))
  {
    KeptLinesFurther(lines, before, "", chunks, current);
    if roomy {
      PlaceCut(gs, cuts, lines, pieces, current, line, limit);
      ChunksAppend(gs, Singles(pieces));
      ChunksOfSingles(pieces);
      AllowanceSnoc(lines, line);
      OpenAfterSnoc(lines, line, limit);
    }
  }

  /** The open chunk after a line that fits. */
  function Joined(current: string, line: string): string {
    if current != "" then current + "\n" + line else line
  }

  lemma KeptJoined(lines: seq<string>, chunks: seq<string>, current: string, line: string)
    requires KeptLines(lines, chunks, current)
    ensures KeptLines(lines + [line], chunks, Joined(current, line))
  {
    assert current <= Joined(current, line);
    KeptLinesFurther(lines, chunks, current, chunks, Joined(current, line));
    forall i | 0 <= i < |line|
      ensures InSome(chunks, Joined(current, line), line[i])
    {
      var j := Joined(current, line);
      assert j[|j| - |line| + i] == line[i];
    }
  }

  lemma AfterLine(roomy: bool, chunks: seq<string>, current: string, currentLen: nat, gs: seq<seq<string>>,
                  open: seq<string>, cuts: seq<seq<string>>, lines: seq<string>, line: string, limit: nat)
    requires LoopOk(roomy, chunks, current, currentLen, gs, open, cuts, lines, line, limit,
                    Settled(OpenAfter(lines, limit), line, limit))
    requires Units(line) <= limit && '\n' !in line && (current != "" ==> currentLen + Units(line) + 1 <= limit)
    ensures LoopOk(roomy, chunks, Joined(current, line),
                   if current != "" then currentLen + 1 + Units(line) else Units(line),
                   gs, Opened(open, line), cuts + [[line]], lines + [line], "",
                   limit, OpenAfter(lines + [line], limit))
  {
    KeptJoined(lines, chunks, current, line);
    if roomy {
      NothingOpen(current);
      if open != [] {
        OpenChunk(open, limit);
      }
      PlaceLine(gs, open, cuts, lines, line, limit);
      JoinLine(open, current, line);
      AllowanceSnoc(lines, line);
      OpenAfterSnoc(lines, line, limit);
    }
  }

  lemma NothingOpen(current: string)
    ensures Units(current) == 0 <==> current == ""
  {
    if current != "" {
      UnitsAtLeastFirst(current);
    }
  }

  /** What `ChunkText` promises of a non-empty text at any limit. */
  ghost predicate IsChunking(chunks: seq<string>, lines: seq<string>, limit: nat) {
    (Roomy(lines, limit) ==> IsSplitting(chunks, lines, limit)) && KeptLines(lines, chunks, "")
  }

  method ChunkText(text: string, maxLen: nat) returns (chunks: seq<string>)
    ensures text == "" ==> chunks == ["(message vide)"]
    ensures text != "" ==> IsChunking(chunks, Lines(text), maxLen)
  {
    if text == "" {
      return ["(message vide)"];
    }
    chunks := [];
    var current: string, currentLen: nat := "", 0;
    var lines := Lines(text);
    ghost var roomy := Roomy(lines, maxLen);
    ghost var gs: seq<seq<string>>, open: seq<string>, cuts: seq<seq<string>> := [], [], [];
    for i := 0 to |lines|
      invariant LoopOk(roomy, chunks, current, currentLen, gs, open, cuts, lines[..i], "", maxLen,
                       OpenAfter(lines[..i], maxLen))
    {
      var line := lines[i];
      var lineLen := Units(line);
      assert lines[..i + 1] == lines[..i] + [line];
      CloseOrKeep(roomy, chunks, current, currentLen, gs, open, cuts, lines[..i], line, maxLen);
      if currentLen + lineLen + 1 > maxLen && current != "" {
        chunks := chunks + [current];
        gs, open := gs + [open], [];
        current, currentLen := "", 0;
      }
      if lineLen > maxLen {
        ghost var before := chunks;
        ghost var pieces;
        ghost var held := Settled(OpenAfter(lines[..i], maxLen), line, maxLen);
        OpenIsEmpty(roomy, chunks, current, currentLen, gs, open, cuts, lines[..i], line, maxLen, held);
        chunks, current, currentLen, pieces := CutLine(line, maxLen, chunks);
        AfterCut(roomy, before, chunks, current, currentLen, gs, cuts, lines[..i], line, pieces, maxLen, held);
        gs, open, cuts := gs + Singles(pieces), [current], cuts + [pieces + [current]];
        continue;
      }
      AfterLine(roomy, chunks, current, currentLen, gs, open, cuts, lines[..i], line, maxLen);
      if current != "" {
        current := current + "\n";
        currentLen := currentLen + 1;
      }
      assert "" + line == line;
      current := current + line;
      currentLen := currentLen + lineLen;
      open, cuts := Opened(open, line), cuts + [[line]];
    }
    assert lines[..|lines|] == lines;
    FinishText(roomy, chunks, current, currentLen, gs, open, cuts, lines, maxLen);
    if current != "" {
      chunks := chunks + [current];
    }
  }

  /** With no chunk open there is no open group either. */
  lemma OpenIsEmpty(roomy: bool, chunks: seq<string>, current: string, currentLen: nat, gs: seq<seq<string>>,
                    open: seq<string>, cuts: seq<seq<string>>, lines: seq<string>, line: string, limit: nat, held: nat)
    requires LoopOk(roomy, chunks, current, currentLen, gs, open, cuts, lines, line, limit, held) && current == ""
    ensures LoopOk(roomy, chunks, "", 0, gs, [], cuts, lines, line, limit, held)
  {
    assert Units("") == 0;
  }
}
