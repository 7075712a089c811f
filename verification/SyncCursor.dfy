/** One sync of a watched account: what changed since the cursor is read, each new
    message is judged and perhaps announced, then the cursor moves. The server is an
    append-only log of changes (RFC 8620, section 5.2) and a cursor a position in it. */
module SyncCursor {
  import opened Basics

  const MAX_CHANGES: nat := 50

  // ---- Judging a message ----

  datatype Role = Drafts | SentBox | OtherRole

  /** `lowSubject`, `lowName` and `lowAddr` are the subject and the sender's name and
      address in lower case, empty where there is none. */
  datatype Email = Email(
    id: string, fromAddr: Option<string>, lowSubject: string, lowName: string, lowAddr: string,
    roles: set<Role>, keywords: set<string>)
  {
    /** What filters are looked up in. */
    function Haystack(): string {
      lowSubject + " " + lowName + " " + lowAddr
    }
  }

  datatype SkipReason = Draft | SentCopy | OwnMessage

  function AsciiLower(c: char): char {
    if 'A' <= c <= 'Z' then (c as int + 32) as char else c
  }

  predicate EqIgnoreAsciiCase(a: string, b: string) {
    |a| == |b| && forall i :: 0 <= i < |a| ==> AsciiLower(a[i]) == AsciiLower(b[i])
  }

  function SkipReasonOf(e: Email, self: string): Option<SkipReason> {
    if Drafts in e.roles || "$draft" in e.keywords then Some(Draft)
    else if SentBox in e.roles then Some(SentCopy)
    else if self != "" && e.fromAddr.Some? && EqIgnoreAsciiCase(e.fromAddr.value, self) then Some(OwnMessage)
    else None
  }

  predicate OccursAt(s: string, t: string, i: nat) {
    i + |t| <= |s| && s[i..i + |t|] == t
  }

  predicate Occurs(s: string, t: string) {
    exists i :: 0 <= i <= |s| && OccursAt(s, t, i)
  }

  predicate IsMuted(e: Email, muted: seq<string>) {
    exists k :: 0 <= k < |muted| && Occurs(e.Haystack(), muted[k])
  }

  /** How a send ended; a lost topic leads to one more try in the root chat. */
  datatype Send = Arrived | NoThread(rootArrived: bool) | Refused

  datatype Verdict = Gone | Skipped(reason: SkipReason) | Muted | Announced(send: Send)

  /** A created message as one sync saw it: not readable any more, or with what it
      held; the account's own address, filters and topic then; how its send would end. */
  datatype Item = Item(id: string, found: Option<Email>, self: string, muted: seq<string>, topic: Option<int>,
                       send: Send)
  {
    function Verdict(): Verdict {
      if found == None then Gone
      else if SkipReasonOf(found.value, self).Some? then Skipped(SkipReasonOf(found.value, self).value)
      else if IsMuted(found.value, muted) then Muted
      else Announced(send)
    }

    /** Worth announcing: there, not the user's own output, not filtered. */
    predicate Notifiable() {
      found.Some? && SkipReasonOf(found.value, self) == None && !IsMuted(found.value, muted)
    }
  }

  // ---- Counting ----

  /** `delivered`, `errors` and `skipped` are metrics; the rest is read off the trace. */
  datatype Tally = Tally(delivered: nat, errors: nat, skipped: nat, muted: nat, gone: nat)

  const ZERO := Tally(0, 0, 0, 0, 0)

  function Counted(t: Tally, v: Verdict): Tally {
    match v
    case Gone => t.(gone := t.gone + 1)
    case Skipped(_) => t.(skipped := t.skipped + 1)
    case Muted => t.(muted := t.muted + 1)
    case Announced(Arrived) => t.(delivered := t.delivered + 1)
    case Announced(Refused) => t.(errors := t.errors + 1)
    case Announced(NoThread(ok)) =>
      if ok then t.(delivered := t.delivered + 1) else t.(errors := t.errors + 1)
  }

  function TallyOf(trace: seq<Item>): Tally {
    if trace == [] then ZERO else Counted(TallyOf(trace[..|trace| - 1]), Last(trace).Verdict())
  }

  /** One request to Telegram: into a topic, or into the root chat. */
  datatype Call = Call(id: string, topic: Option<int>, ok: bool)

  function CallsOf(x: Item): seq<Call> {
    match x.Verdict()
    case Announced(Arrived) => [Call(x.id, x.topic, true)]
    case Announced(Refused) => [Call(x.id, x.topic, false)]
    case Announced(NoThread(ok)) => [Call(x.id, x.topic, false), Call(x.id, None, ok)]
    case _ => []
  }

  function Calls(trace: seq<Item>): seq<Call> {
    if trace == [] then [] else Calls(trace[..|trace| - 1]) + CallsOf(Last(trace))
  }

  lemma TraceSnoc(trace: seq<Item>, x: Item)
    ensures TallyOf(trace + [x]) == Counted(TallyOf(trace), x.Verdict())
    ensures Calls(trace + [x]) == Calls(trace) + CallsOf(x)
  {
    assert (trace + [x])[..|trace|] == trace;
  }

  function Successes(calls: seq<Call>): nat {
    if calls == [] then 0 else Successes(calls[..|calls| - 1]) + if Last(calls).ok then 1 else 0
  }

  function LostTopics(trace: seq<Item>): nat {
    if trace == [] then 0 else
      LostTopics(trace[..|trace| - 1])
      + if Last(trace).Verdict().Announced? && Last(trace).send.NoThread? then 1 else 0
  }

  lemma {:induction false} SuccessesConcat(a: seq<Call>, b: seq<Call>)
    ensures Successes(a + b) == Successes(a) + Successes(b)
  {
    if b == [] {
      assert a + b == a;
    } else {
      assert (a + b)[..|a + b| - 1] == a + b[..|b| - 1] && Last(a + b) == Last(b);
      SuccessesConcat(a, b[..|b| - 1]);
    }
  }

  lemma CallsOfItem(x: Item)
    ensures Successes(CallsOf(x)) == (if x.Verdict().Announced? &&
        (x.send.Arrived? || (x.send.NoThread? && x.send.rootArrived)) then 1 else 0)
  {
    var c := CallsOf(x);
    assert |c| > 0 ==> Successes(c[..|c| - 1]) == if |c| > 1 && c[0].ok then 1 else 0;
  }

  /** Over any run every synced message is delivered, failed, skipped, muted or gone,
      once. Each announcement is one request plus, for a lost topic, exactly one more
      into the root chat, and "delivered" counts the requests that succeeded. */
  lemma {:induction false} NothingIsLostInCounting(trace: seq<Item>)
    ensures var t := TallyOf(trace);
            && t.delivered + t.errors + t.skipped + t.muted + t.gone == |trace|
            && t.delivered + t.errors == |Attempts(trace)|
            && |Calls(trace)| == |Attempts(trace)| + LostTopics(trace)
            && Successes(Calls(trace)) == t.delivered
  {
    if trace != [] {
      NothingIsLostInCounting(trace[..|trace| - 1]);
      SuccessesConcat(Calls(trace[..|trace| - 1]), CallsOf(Last(trace)));
      CallsOfItem(Last(trace));
    }
  }

  /** The ids of the messages an announcement was tried for, in order. */
  function Attempts(trace: seq<Item>): seq<string> {
    if trace == [] then [] else
      Attempts(trace[..|trace| - 1]) + if Last(trace).Verdict().Announced? then [Last(trace).id] else []
  }

  /** Two requests for each: into the lost topic, then into the root chat. */
  ghost predicate EachTriesTheTopic(calls: seq<Call>, ids: seq<string>, topic: int) {
    |calls| == 2 * |ids|
    && forall k :: 0 <= k < |ids| ==>
         && calls[2 * k] == Call(ids[k], Some(topic), false)
         && calls[2 * k + 1].id == ids[k] && calls[2 * k + 1].topic == None
  }

  /** A sync takes the topic from the account as read before its first message, so once
      the topic is gone every announcement of that sync still tries it first, although
      the first failure has cleared it in the store. */
  lemma {:induction false} LostTopicCostsTheSync(batch: seq<Item>, topic: int)
    requires forall i :: 0 <= i < |batch| ==> batch[i].topic == Some(topic) && batch[i].send.NoThread?
    ensures EachTriesTheTopic(Calls(batch), Attempts(batch), topic)
  {
    if batch != [] {
      LostTopicCostsTheSync(batch[..|batch| - 1], topic);
    }
  }

  function Ids(trace: seq<Item>): seq<string> {
    seq(|trace|, i requires 0 <= i < |trace| => trace[i].id)
  }

  function NotifiableIds(trace: seq<Item>): seq<string> {
    if trace == [] then [] else
      (if trace[0].Notifiable() then [trace[0].id] else []) + NotifiableIds(trace[1..])
  }

  lemma {:induction false} NotifiableSnoc(trace: seq<Item>, x: Item)
    ensures NotifiableIds(trace + [x]) == NotifiableIds(trace) + if x.Notifiable() then [x.id] else []
  {
    if trace == [] {
      assert (trace + [x])[1..] == [];
    } else {
      assert (trace + [x])[1..] == trace[1..] + [x];
      NotifiableSnoc(trace[1..], x);
    }
  }

  /** What is tried is exactly what is worth announcing, in order. */
  lemma {:induction false} AttemptsAreTheNotifiable(trace: seq<Item>)
    ensures Attempts(trace) == NotifiableIds(trace)
  {
    if trace != [] {
      var front := trace[..|trace| - 1];
      AttemptsAreTheNotifiable(front);
      NotifiableSnoc(front, Last(trace));
      assert front + [Last(trace)] == trace;
    }
  }

  // ---- The server ----

  datatype Change = Created(id: string) | Updated(id: string) | Destroyed(id: string)

  function CreatedIn(log: seq<Change>, a: nat, b: nat): seq<string>
    requires a <= b <= |log|
    decreases b - a
  {
    if a == b then [] else (if log[a].Created? then [log[a].id] else []) + CreatedIn(log, a + 1, b)
  }

  lemma {:induction false} CreatedConcat(log: seq<Change>, a: nat, b: nat, c: nat)
    requires a <= b <= c <= |log|
    ensures CreatedIn(log, a, c) == CreatedIn(log, a, b) + CreatedIn(log, b, c)
    decreases b - a
  {
    if a < b {
      CreatedConcat(log, a + 1, b, c);
    }
  }

  /** What the fetch brought: the new cursor and, for each message created in
      between, its content unless it could no longer be read. */
  datatype Reply = Reply(newState: nat, items: seq<Item>)

  /** An answer a server may give from position `since` of the log. */
  ghost predicate Honest(log: seq<Change>, since: nat, r: Reply) {
    && since <= r.newState <= |log|
    && Ids(r.items) == CreatedIn(log, since, r.newState)
    && r.newState - since <= MAX_CHANGES
    && (since < |log| ==> since < r.newState)
  }

  lemma PrefixSnoc(before: seq<Item>, items: seq<Item>, i: nat)
    requires i < |items|
    ensures before + items[..i] + [items[i]] == before + items[..i + 1]
  {
  }

  // ---- The watcher ----

  class Watched {
    var cursor: Option<nat>
    var threadId: Option<int>
    var tally: Tally
    var calls: seq<Call>
    ghost var trace: seq<Item>

    ghost predicate Valid()
      reads this
    {
      tally == TallyOf(trace) && calls == Calls(trace)
    }

    constructor (baseline: Option<nat>, threadId: Option<int>)
      ensures Valid() && trace == [] && cursor == baseline && this.threadId == threadId
    {
      cursor, this.threadId, tally, calls, trace := baseline, threadId, ZERO, [], [];
    }

    /** The send of a message worth announcing, and its second try if the topic is gone. */
    method Deliver(item: Item)
      requires item.Verdict() == Announced(item.send)
      modifies `tally, `threadId, `calls
      ensures tally == Counted(old(tally), item.Verdict()) && calls == old(calls) + CallsOf(item)
      ensures threadId == if item.send.NoThread? then None else old(threadId)
    {
      calls := calls + [Call(item.id, item.topic, item.send.Arrived?)];
      match item.send
      case Arrived => tally := tally.(delivered := tally.delivered + 1);
      case Refused => tally := tally.(errors := tally.errors + 1);
      case NoThread(rootArrived) =>
        threadId := None;
        calls := calls + [Call(item.id, None, rootArrived)];
        if rootArrived {
          tally := tally.(delivered := tally.delivered + 1);
        } else {
          tally := tally.(errors := tally.errors + 1);
        }
    }

    /** One message of the batch. */
    method Announce(item: Item)
      requires Valid()
      modifies `tally, `threadId, `calls, `trace
      ensures Valid() && trace == old(trace) + [item]
      ensures threadId == if item.Verdict().Announced? && item.send.NoThread? then None else old(threadId)
    {
      ghost var before := trace;
      if item.found == None {
        tally := tally.(gone := tally.gone + 1);
      } else if SkipReasonOf(item.found.value, item.self).Some? {
        tally := tally.(skipped := tally.skipped + 1);
      } else if IsMuted(item.found.value, item.muted) {
        tally := tally.(muted := tally.muted + 1);
      } else {
        Deliver(item);
      }
      trace := before + [item];
      assert tally == TallyOf(trace) && calls == Calls(trace) by {
        TraceSnoc(before, item);
        assert tally == Counted(old(tally), item.Verdict());
        assert calls == old(calls) + CallsOf(item);
      }
    }

    /** The batch, message by message. */
    method AnnounceAll(items: seq<Item>)
      requires Valid()
      modifies `tally, `threadId, `calls, `trace
      ensures Valid() && trace == old(trace) + items
      ensures threadId == None || threadId == old(threadId)
    {
      for i := 0 to |items|
        invariant Valid()
        invariant threadId == None || threadId == old(threadId)
        invariant trace == old(trace) + items[..i]
      {
        Announce(items[i]);
        PrefixSnoc(old(trace), items, i);
      }
      assert items[..|items|] == items;
    }

    /** `current` answers the request for the current state, `reply` the one for
        changes; None is a failed request. `known` says that the store has the chat
        when the sync starts, `kept` that the target is still there at its end. */
    method SyncAndNotify(known: bool, current: Option<nat>, reply: Option<Reply>, kept: bool)
      requires Valid()
      modifies this
      ensures Valid()
      ensures !known ==> cursor == old(cursor) && trace == old(trace)
      ensures known && old(cursor) == None ==> trace == old(trace) && cursor == (if kept then current else None)
      ensures known && old(cursor).Some? && reply == None ==> cursor == old(cursor) && trace == old(trace)
      ensures known && old(cursor).Some? && reply.Some? ==>
                && trace == old(trace) + reply.value.items
                && cursor == (if kept then Some(reply.value.newState) else old(cursor))
    {
      if !known {
        return;
      }
      if cursor == None {
        if kept && current.Some? {
          cursor := current;
        }
        return;
      }
      if reply == None {
        return;
      }
      AnnounceAll(reply.value.items);
      if reply.value.newState != cursor.value && kept {
        cursor := Some(reply.value.newState);
      }
    }

    /** The loop of a watcher whose target stays: one sync per wake-up, each answered
        or not (None). */
    method Follow(replies: seq<Option<Reply>>)
      requires Valid() && cursor.Some?
      modifies this
      ensures Valid()
      ensures cursor == Some(RunSyncs(old(cursor).value, replies).0)
      ensures trace == old(trace) + RunSyncs(old(cursor).value, replies).1
    {
      for i := 0 to |replies|
        invariant Valid() && cursor.Some?
        invariant RunSyncs(cursor.value, replies[i..]).0 == RunSyncs(old(cursor).value, replies).0
        invariant trace + RunSyncs(cursor.value, replies[i..]).1 == old(trace) + RunSyncs(old(cursor).value, replies).1
      {
        ghost var rest := replies[i..];
        assert rest[0] == replies[i] && rest[1..] == replies[i + 1..];
        SyncAndNotify(true, None, replies[i], true);
        assert replies[i].Some? ==>
          trace + RunSyncs(cursor.value, rest[1..]).1 == old(trace) + RunSyncs(old(cursor).value, replies).1;
      }
      assert replies[|replies|..] == [];
    }
  }

  // ---- Runs without a crash ----

  /** What a run of syncs of one watcher does to cursor and trace: a failed fetch
      (None) nothing, an answer as `SyncAndNotify` says. */
  function RunSyncs(cursor: nat, replies: seq<Option<Reply>>): (nat, seq<Item>)
    decreases |replies|
  {
    if replies == [] then (cursor, []) else
      match replies[0]
      case None => RunSyncs(cursor, replies[1..])
      case Some(r) => var (c, items) := RunSyncs(r.newState, replies[1..]); (c, r.items + items)
  }

  ghost predicate HonestRun(log: seq<Change>, cursor: nat, replies: seq<Option<Reply>>)
    decreases |replies|
  {
    replies == [] ||
    (match replies[0]
     case None => HonestRun(log, cursor, replies[1..])
     case Some(r) => && cursor <= r.newState <= |log| && Ids(r.items) == CreatedIn(log, cursor, r.newState)
                     && HonestRun(log, r.newState, replies[1..]))
  }

  /** The messages handled in a run are exactly those created between the baseline
      and the cursor, in order; so the announcements tried are exactly the ones among
      them worth announcing. */
  lemma {:induction false} RunHandlesTheWindow(log: seq<Change>, baseline: nat, replies: seq<Option<Reply>>)
    requires baseline <= |log| && HonestRun(log, baseline, replies)
    ensures var (cursor, trace) := RunSyncs(baseline, replies);
            && baseline <= cursor <= |log|
            && Ids(trace) == CreatedIn(log, baseline, cursor)
            && Attempts(trace) == NotifiableIds(trace)
    decreases |replies|
  {
    var (cursor, trace) := RunSyncs(baseline, replies);
    if replies != [] {
      match replies[0]
      case None => RunHandlesTheWindow(log, baseline, replies[1..]);
      case Some(r) =>
        RunHandlesTheWindow(log, r.newState, replies[1..]);
        var (c, items) := RunSyncs(r.newState, replies[1..]);
        CreatedConcat(log, baseline, r.newState, c);
        assert Ids(r.items + items) == Ids(r.items) + Ids(items);
    }
    AttemptsAreTheNotifiable(trace);
  }

  /** The server never creates the same id twice. */
  ghost predicate FreshIds(log: seq<Change>) {
    forall i, j :: 0 <= i < j < |log| && log[i].Created? && log[j].Created? ==> log[i].id != log[j].id
  }

  lemma {:induction false} CreatedFrom(log: seq<Change>, a: nat, b: nat, id: string)
    requires a <= b <= |log|
    ensures id in CreatedIn(log, a, b) <==> exists i :: a <= i < b && log[i] == Created(id)
    decreases b - a
  {
    if a < b {
      CreatedFrom(log, a + 1, b, id);
      var first := if log[a].Created? then [log[a].id] else [];
      assert CreatedIn(log, a, b) == first + CreatedIn(log, a + 1, b);
      assert id in first <==> log[a] == Created(id);
      if i :| a <= i < b && log[i] == Created(id) {
        assert i == a || a + 1 <= i < b;
      }
    }
  }

  lemma {:induction false} CreatedOnce(log: seq<Change>, a: nat, b: nat)
    requires a <= b <= |log| && FreshIds(log)
    ensures var c := CreatedIn(log, a, b); forall i, j :: 0 <= i < j < |c| ==> c[i] != c[j]
    decreases b - a
  {
    if a < b {
      CreatedOnce(log, a + 1, b);
      CreatedFrom(log, a + 1, b, log[a].id);
    }
  }

  lemma {:induction false} AttemptedIsListed(trace: seq<Item>, id: string)
    requires id in Attempts(trace)
    ensures id in Ids(trace)
  {
    var front := trace[..|trace| - 1];
    if id in Attempts(front) {
      AttemptedIsListed(front, id);
      var i :| 0 <= i < |front| && Ids(front)[i] == id;
      assert Ids(trace)[i] == id;
    } else {
      assert Ids(trace)[|trace| - 1] == id;
    }
  }

  lemma {:induction false} AttemptsInheritOnce(trace: seq<Item>)
    requires var ids := Ids(trace); forall i, j :: 0 <= i < j < |ids| ==> ids[i] != ids[j]
    ensures var t := Attempts(trace); forall i, j :: 0 <= i < j < |t| ==> t[i] != t[j]
  {
    if trace != [] {
      var front := trace[..|trace| - 1];
      var ids := Ids(trace);
      forall i, j | 0 <= i < j < |Ids(front)|
        ensures Ids(front)[i] != Ids(front)[j]
      {
        assert Ids(front)[i] == ids[i] && Ids(front)[j] == ids[j];
      }
      AttemptsInheritOnce(front);
      forall i | 0 <= i < |front|
        ensures Ids(front)[i] != Last(trace).id
      {
        assert Ids(front)[i] == ids[i] && ids[|trace| - 1] == Last(trace).id;
      }
      forall k | 0 <= k < |Attempts(front)|
        ensures Attempts(front)[k] != Last(trace).id
      {
        AttemptedIsListed(front, Attempts(front)[k]);
      }
    }
  }

  /** No message is announced twice in a run. */
  lemma EachOnce(log: seq<Change>, baseline: nat, replies: seq<Option<Reply>>)
    requires baseline <= |log| && HonestRun(log, baseline, replies) && FreshIds(log)
    ensures var t := Attempts(RunSyncs(baseline, replies).1); forall i, j :: 0 <= i < j < |t| ==> t[i] != t[j]
  {
    RunHandlesTheWindow(log, baseline, replies);
    CreatedOnce(log, baseline, RunSyncs(baseline, replies).0);
    AttemptsInheritOnce(RunSyncs(baseline, replies).1);
  }

  // ---- Reaching the head ----

  /** Every sync is answered, each with at least `step` changes unless that passes the head. */
  ghost predicate Answered(log: seq<Change>, cursor: nat, replies: seq<Option<Reply>>, step: nat)
    decreases |replies|
  {
    replies == [] ||
    (&& replies[0].Some? && Honest(log, cursor, replies[0].value)
     && (replies[0].value.newState >= cursor + step || replies[0].value.newState == |log|)
     && Answered(log, replies[0].value.newState, replies[1..], step))
  }

  /** While nothing new is created, n answered syncs advance by n steps or reach the
      head: with full answers of 50, the head is reached after a fiftieth of the
      distance, rounded up; an honest server moves by at least one each time. */
  lemma {:induction false} SyncsReachTheHead(log: seq<Change>, cursor: nat, replies: seq<Option<Reply>>, step: nat)
    requires cursor <= |log| && Answered(log, cursor, replies, step)
    ensures var c := RunSyncs(cursor, replies).0; c == |log| || c >= cursor + |replies| * step
    ensures |replies| * step >= |log| - cursor ==> RunSyncs(cursor, replies).0 >= |log|
    decreases |replies|
  {
    if replies != [] {
      var r := replies[0].value;
      SyncsReachTheHead(log, r.newState, replies[1..], step);
      assert |replies| * step == |replies[1..]| * step + step;
      if r.newState == |log| {
        AtHeadStays(log, replies[1..], step);
      }
    }
  }

  lemma {:induction false} AtHeadStays(log: seq<Change>, replies: seq<Option<Reply>>, step: nat)
    requires Answered(log, |log|, replies, step)
    ensures RunSyncs(|log|, replies).0 == |log|
    decreases |replies|
  {
    if replies != [] {
      AtHeadStays(log, replies[1..], step);
    }
  }

  lemma {:induction false} HonestAnswersProgress(log: seq<Change>, cursor: nat, replies: seq<Option<Reply>>)
    requires cursor <= |log| && Answered(log, cursor, replies, 0)
    ensures Answered(log, cursor, replies, 1)
    decreases |replies|
  {
    if replies != [] {
      HonestAnswersProgress(log, replies[0].value.newState, replies[1..]);
    }
  }

  /** With an honest server that answers every sync, as many syncs as there are changes
      to read reach the head, however few changes each answer carries. */
  lemma HonestSyncsReachTheHead(log: seq<Change>, cursor: nat, replies: seq<Option<Reply>>)
    requires cursor <= |log| && Answered(log, cursor, replies, 0) && |replies| >= |log| - cursor
    ensures RunSyncs(cursor, replies).0 == |log|
  {
    HonestAnswersProgress(log, cursor, replies);
    SyncsReachTheHead(log, cursor, replies, 1);
    assert |replies| * 1 == |replies|;
    StaysWithinLog(log, cursor, replies);
  }

  lemma {:induction false} StaysWithinLog(log: seq<Change>, cursor: nat, replies: seq<Option<Reply>>)
    requires cursor <= |log| && Answered(log, cursor, replies, 0)
    ensures RunSyncs(cursor, replies).0 <= |log|
    decreases |replies|
  {
    if replies != [] {
      StaysWithinLog(log, replies[0].value.newState, replies[1..]);
    }
  }
}
