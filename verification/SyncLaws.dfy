/** What a sync does with one message, told from the message alone: when it is skipped
    or muted, what is counted, and which requests go out. */
module SyncLaws {
  import opened Basics
  import opened SyncCursor
  import opened Picking

  // ---- Filters ----

  predicate Within(term: string, text: string, pre: string, post: string) {
    text == pre + term + post
  }

  ghost predicate Contains(text: string, term: string) {
    exists pre, post :: Within(term, text, pre, post)
  }

  lemma OccursIff(text: string, term: string)
    ensures Occurs(text, term) <==> Contains(text, term)
  {
    if i :| 0 <= i <= |text| && OccursAt(text, term, i) {
      assert Within(term, text, text[..i], text[i + |term|..]);
    }
    if pre, post :| Within(term, text, pre, post) {
      assert OccursAt(text, term, |pre|);
    }
  }

  /** A filter is in the subject, a space, the sender's name, a space and the address. */
  ghost predicate MutedBy(e: Email, term: string) {
    Contains(e.lowSubject + " " + e.lowName + " " + e.lowAddr, term)
  }

  lemma MutedIff(e: Email, muted: seq<string>)
    ensures IsMuted(e, muted) <==> exists k :: 0 <= k < |muted| && MutedBy(e, muted[k])
  {
    forall k | 0 <= k < |muted|
      ensures Occurs(e.Haystack(), muted[k]) <==> MutedBy(e, muted[k])
    {
      OccursIff(e.Haystack(), muted[k]);
    }
  }

  lemma CoversPlace(text: string, term: string, i: nat, at: nat)
    requires OccursAt(text, term, i) && i <= at < i + |term|
    ensures text[at] in term
  {
    assert term[at - i] == text[at];
  }

  lemma OccursBefore(a: string, b: string, term: string, i: nat)
    requires i + |term| <= |a|
    ensures OccursAt(a + b, term, i) <==> OccursAt(a, term, i)
  {
    assert (a + b)[i..i + |term|] == a[i..i + |term|];
  }

  lemma OccursBehind(a: string, b: string, term: string, i: nat)
    ensures OccursAt(a + b, term, |a| + i) <==> OccursAt(b, term, i)
  {
    if i + |term| <= |b| {
      assert (a + b)[|a| + i..|a| + i + |term|] == b[i..i + |term|];
    }
  }

  lemma AroundSpace(a: string, b: string, term: string)
    requires ' ' !in term
    ensures Occurs(a + " " + b, term) <==> Occurs(a, term) || Occurs(b, term)
  {
    var text := a + " " + b;
    if i :| 0 <= i <= |text| && OccursAt(text, term, i) {
      if i <= |a| < i + |term| {
        CoversPlace(text, term, i, |a|);
      } else if i <= |a| {
        OccursBefore(a + " ", b, term, i);
        OccursBefore(a, " ", term, i);
      } else {
        OccursBehind(a + " ", b, term, i - |a| - 1);
      }
    }
    if i :| 0 <= i <= |a| && OccursAt(a, term, i) {
      OccursBefore(a, " ", term, i);
      OccursBefore(a + " ", b, term, i);
    }
    if i :| 0 <= i <= |b| && OccursAt(b, term, i) {
      OccursBehind(a + " ", b, term, i);
    }
  }

  /** A filter without a space mutes exactly what has it in the subject, in the sender's
      name or in the address. */
  lemma WordMutesIff(e: Email, term: string)
    requires ' ' !in term
    ensures IsMuted(e, [term]) <==>
            Contains(e.lowSubject, term) || Contains(e.lowName, term) || Contains(e.lowAddr, term)
  {
    AroundSpace(e.lowSubject + " " + e.lowName, e.lowAddr, term);
    AroundSpace(e.lowSubject, e.lowName, term);
    OccursIff(e.lowSubject, term);
    OccursIff(e.lowName, term);
    OccursIff(e.lowAddr, term);
    assert [term][0] == term;
  }

  // ---- The user's own output ----

  /** The same character, or the same ASCII letter in the other case. */
  predicate SameLetter(c: char, d: char) {
    c == d || ('a' <= c <= 'z' && c as int - 32 == d as int) || ('a' <= d <= 'z' && d as int - 32 == c as int)
  }

  predicate SameAddress(a: string, b: string) {
    |a| == |b| && forall i :: 0 <= i < |a| ==> SameLetter(a[i], b[i])
  }

  lemma FoldingIff(a: string, b: string)
    ensures EqIgnoreAsciiCase(a, b) <==> SameAddress(a, b)
  {
    forall c: char, d: char
      ensures AsciiLower(c) == AsciiLower(d) <==> SameLetter(c, d)
    {
    }
  }

  predicate IsDraft(e: Email) {
    Drafts in e.roles || "$draft" in e.keywords
  }

  predicate IsSentCopy(e: Email) {
    SentBox in e.roles
  }

  predicate IsOwn(e: Email, self: string) {
    self != "" && e.fromAddr.Some? && SameAddress(e.fromAddr.value, self)
  }

  /** A draft, by its mailbox or its keyword; otherwise a copy in the mailbox of sent
      mail; otherwise a mail from the watched address itself, but for ASCII case. */
  lemma SkippedIff(e: Email, self: string)
    ensures SkipReasonOf(e, self) == Some(Draft) <==> IsDraft(e)
    ensures SkipReasonOf(e, self) == Some(SentCopy) <==> !IsDraft(e) && IsSentCopy(e)
    ensures SkipReasonOf(e, self) == Some(OwnMessage) <==> !IsDraft(e) && !IsSentCopy(e) && IsOwn(e, self)
    ensures SkipReasonOf(e, self) == None <==> !IsDraft(e) && !IsSentCopy(e) && !IsOwn(e, self)
  {
    if e.fromAddr.Some? {
      FoldingIff(e.fromAddr.value, self);
    }
  }

  /** News: still there, not the user's own output, and no filter is in it. */
  ghost predicate IsNews(x: Item) {
    && x.found.Some? && !IsDraft(x.found.value) && !IsSentCopy(x.found.value) && !IsOwn(x.found.value, x.self)
    && forall k :: 0 <= k < |x.muted| ==> !MutedBy(x.found.value, x.muted[k])
  }

  lemma AnnouncedIffNews(x: Item)
    ensures x.Verdict().Announced? <==> IsNews(x)
    ensures x.Notifiable() <==> IsNews(x)
    ensures IsNews(x) ==> x.Verdict() == Announced(x.send)
    ensures x.Verdict().Gone? <==> x.found == None
    ensures x.Verdict() == Muted <==>
            && x.found.Some? && SkipReasonOf(x.found.value, x.self) == None
            && exists k :: 0 <= k < |x.muted| && MutedBy(x.found.value, x.muted[k])
  {
    if x.found.Some? {
      MutedIff(x.found.value, x.muted);
      SkippedIff(x.found.value, x.self);
    }
  }

  ghost const NO_NEWS: iset<Item> := iset x: Item | !IsNews(x)

  /** The announcements that a run tries are those of the news among its messages, in order. */
  lemma {:induction false} AttemptsAreTheNews(trace: seq<Item>) returns (news: seq<Item>)
    ensures Picked(trace, news, NO_NEWS) && Attempts(trace) == Ids(news)
  {
    if trace == [] {
      news := [];
      PickNone(NO_NEWS);
    } else {
      var x := Last(trace);
      var front := AttemptsAreTheNews(trace[..|trace| - 1]);
      AnnouncedIffNews(x);
      news := if x in NO_NEWS then front else front + [x];
      PickedSnoc(trace[..|trace| - 1], front, NO_NEWS, x);
      assert trace == trace[..|trace| - 1] + [x];
    }
  }

  // ---- Counting and requests ----

  /** How many messages of a trace got this verdict. */
  ghost function Number(trace: seq<Item>, these: iset<Verdict>): nat {
    if trace == [] then 0
    else Number(trace[..|trace| - 1], these) + if Last(trace).Verdict() in these then 1 else 0
  }

  /** Each counter counts its own verdicts. */
  lemma {:induction false} CountersAreTrue(trace: seq<Item>)
    ensures var t := TallyOf(trace);
            && t.gone == Number(trace, iset{Gone})
            && t.skipped == Number(trace, iset{Skipped(Draft), Skipped(SentCopy), Skipped(OwnMessage)})
            && t.muted == Number(trace, iset{Muted})
            && t.delivered == Number(trace, iset{Announced(Arrived), Announced(NoThread(true))})
            && t.errors == Number(trace, iset{Announced(Refused), Announced(NoThread(false))})
  {
    if trace != [] {
      CountersAreTrue(trace[..|trace| - 1]);
    }
  }

  /** The requests for one message: none unless it is news, then one into the topic, which
      succeeds exactly when the message arrived, and after a lost topic one more into the
      root chat. */
  lemma RequestsOfOne(x: Item)
    ensures !IsNews(x) ==> CallsOf(x) == []
    ensures IsNews(x) ==>
              && 1 <= |CallsOf(x)| <= 2
              && CallsOf(x)[0].id == x.id && CallsOf(x)[0].topic == x.topic
              && (CallsOf(x)[0].ok <==> x.send == Arrived)
              && (|CallsOf(x)| == 2 <==> x.send.NoThread?)
              && (x.send.NoThread? ==> CallsOf(x)[1] == Call(x.id, None, x.send.rootArrived))
  {
    AnnouncedIffNews(x);
  }
}
