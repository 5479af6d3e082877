/** What the parts of a message tell of the events they were folded from, over whole runs
(crates/doc/src/parts.rs:287-504). */
module PartStory {
  import opened Wrappers
  import opened Hlc
  import opened Parts

  /** After every run, at most one tool chip and at most one question stand under each id. */
  lemma {:induction false} StoryOnce(events: seq<Event>)
    ensures Once(Story(events))
    decreases |events|
  {
    if events != [] {
      var front, last := events[..|events| - 1], events[|events| - 1];
      StoryOnce(front);
      FoldedBecame(Story(front), last);
      hide Once, Folded, Became;
      OnceKept(Story(front), last, Story(events));
    }
  }

  lemma {:induction false} StoryNext(events: seq<Event>)
    requires events != []
    ensures var was := Story(events[..|events| - 1]); Once(was) && Became(was, events[|events| - 1], Story(events))
  {
    StoryOnce(events[..|events| - 1]);
    FoldedBecame(Story(events[..|events| - 1]), events[|events| - 1]);
  }

  // ── a tool's chip ─────────────────────────────────────────────────────────

  /** A result of that tool, at or after `b`, and the last one. */
  ghost predicate Resulted(events: seq<Event>, b: nat, r: int, id: string) {
    b <= r < |events| && events[r].ToolResult? && events[r].id == id
  }

  ghost predicate LastResult(events: seq<Event>, b: nat, r: int, id: string) {
    Resulted(events, b, r, id) && forall s :: r < s < |events| ==> !Resulted(events, b, s, id)
  }

  ghost predicate Called(events: seq<Event>, b: nat, c: int, id: string) {
    b <= c < |events| && events[c].ToolCall? && events[c].id == id
  }

  ghost predicate LastCall(events: seq<Event>, b: nat, c: int, id: string) {
    Called(events, b, c, id) && forall d :: c < d < |events| ==> !Called(events, b, d, id)
  }

  /** The chip came with the call at `b` and has stood ever since. */
  ghost predicate StoodSince(events: seq<Event>, b: nat, id: string) {
    && Called(events, b, b, id) && !HasTool(Story(events[..b]), id)
    && forall j :: b < j <= |events| ==> HasTool(Story(events[..j]), id)
  }

  /** What the chip shows is the last call and the last result since: resolved exactly if there was
  a result, failed as that says. */
  ghost predicate ReadsAs(p: Part, events: seq<Event>, b: nat) {
    && p.Tool?
    && (p.resolved <==> exists r :: Resulted(events, b, r, p.id))
    && (forall r :: LastResult(events, b, r, p.id) ==> p.isError == events[r].isError && p.stats == events[r].stats)
    && (!p.resolved ==> !p.isError && p.stats == None)
    && (exists c :: LastCall(events, b, c, p.id) && p.call == events[c].call)
  }

  lemma {:induction false} ToolTold(events: seq<Event>, i: nat) returns (b: nat)
    requires i < |Story(events)| && Story(events)[i].Tool?
    ensures b < |events| && StoodSince(events, b, Story(events)[i].id) && ReadsAs(Story(events)[i], events, b)
    decreases |events|
  {
    var n := |events|;
    var front, last, p := events[..n - 1], events[n - 1], Story(events)[i];
    StoryNext(events);
    if HasTool(Story(front), p.id) {
      var k := ChipFrom(Story(front), last, Story(events), i);
      b := ToolTold(front, k);
      hide Story, Became;
      StandsOn(events, b, p.id, i);
      ReadsOn(Story(front)[k], p, events, b);
    } else {
      ChipAdded(Story(front), last, Story(events), i);
      b := n - 1;
      hide Story, Became;
      NewChip(p, events);
      StandsNew(events, p.id, i);
    }
  }

  lemma {:induction false} ChipAdded(was: seq<Part>, e: Event, now: seq<Part>, i: nat)
    requires Once(was) && Became(was, e, now) && i < |now| && now[i].Tool? && !HasTool(was, now[i].id)
    ensures e.ToolCall? && now[i] == Tool(e.id, e.call, false, false, None, None)
  {
    hide Once;
    if i < |was| {
      HeldBefore(was, e, now, i);
    } else {
      Appended(was, e, now);
    }
  }

  /** A chip in its place was one before. */
  lemma {:induction false} HeldBefore(was: seq<Part>, e: Event, now: seq<Part>, i: nat)
    requires Once(was) && Became(was, e, now) && i < |now| && i < |was| && now[i].Tool?
    ensures HasTool(was, now[i].id)
  {
    SamePlaceNow(was, e, now, i);
    assert IsTool(was[i], now[i].id);
  }

  /** What an event makes of the chip. */
  ghost predicate ChipMoves(p: Part, e: Event, q: Part) {
    && p.Tool? && q.Tool? && q.id == p.id
    && q.call == (if e.ToolCall? && e.id == p.id then e.call else p.call)
    && q.resolved == (p.resolved || (e.ToolResult? && e.id == p.id))
    && q.isError == (if e.ToolResult? && e.id == p.id then e.isError else p.isError)
    && q.stats == (if e.ToolResult? && e.id == p.id then e.stats else p.stats)
    && q.status == (if e.Subagent? && e.parent == p.id && p.call.spawn then Lifecycle(p.status, e.inner) else p.status)
  }

  lemma {:induction false} ChipFrom(was: seq<Part>, e: Event, now: seq<Part>, i: nat) returns (k: nat)
    requires Once(was) && Became(was, e, now) && i < |now| && now[i].Tool? && HasTool(was, now[i].id)
    ensures k < |was| && ChipMoves(was[k], e, now[i])
  {
    k := i;
    NoneAdded(was, e, now, i);
    SamePlaceNow(was, e, now, i);
  }

  lemma {:induction false} NoneAdded(was: seq<Part>, e: Event, now: seq<Part>, i: nat)
    requires Once(was) && Became(was, e, now) && i < |now| && now[i].Tool? && HasTool(was, now[i].id)
    ensures i < |was|
  {
    var j :| 0 <= j < |was| && IsTool(was[j], now[i].id);
    if |now| > |was| {
      Appended(was, e, now);
    }
  }

  lemma {:induction false} SamePlaceNow(was: seq<Part>, e: Event, now: seq<Part>, i: nat)
    requires Once(was) && Became(was, e, now) && i < |now| && i < |was| && now[i].Tool?
    ensures ChipMoves(was[i], e, now[i])
  {
  }

  lemma {:induction false} StandsOn(events: seq<Event>, b: nat, id: string, i: nat)
    requires events != [] && b < |events| - 1 && StoodSince(events[..|events| - 1], b, id)
    requires i < |Story(events)| && IsTool(Story(events)[i], id)
    ensures StoodSince(events, b, id)
  {
    var front := events[..|events| - 1];
    assert front[..b] == events[..b] && events[..|events|] == events;
    forall j | b < j <= |events| ensures HasTool(Story(events[..j]), id) {
      if j < |events| {
        assert front[..j] == events[..j];
      }
    }
  }

  lemma {:induction false} StandsNew(events: seq<Event>, id: string, i: nat)
    requires events != [] && Called(events, |events| - 1, |events| - 1, id) && !HasTool(Story(events[..|events| - 1]), id)
    requires i < |Story(events)| && IsTool(Story(events)[i], id)
    ensures StoodSince(events, |events| - 1, id)
  {
    assert events[..|events|] == events;
  }

  lemma {:induction false} NewChip(p: Part, events: seq<Event>)
    requires events != [] && events[|events| - 1].ToolCall?
    requires p == Tool(events[|events| - 1].id, events[|events| - 1].call, false, false, None, None)
    ensures ReadsAs(p, events, |events| - 1)
  {
    assert LastCall(events, |events| - 1, |events| - 1, p.id);
  }

  lemma {:induction false} OneMoreResult(events: seq<Event>, b: nat, id: string, r: int)
    requires events != [] && b < |events| - 1
    ensures var n := |events| - 1;
      Resulted(events, b, r, id) <==> Resulted(events[..n], b, r, id) || (r == n && Resulted(events, b, n, id))
  {
  }

  lemma {:induction false} ResultOn(p: Part, q: Part, events: seq<Event>, b: nat)
    requires events != [] && b < |events| - 1 && ReadsAs(p, events[..|events| - 1], b) && ChipMoves(p, events[|events| - 1], q)
    ensures q.resolved <==> exists r :: Resulted(events, b, r, q.id)
    ensures forall r :: LastResult(events, b, r, q.id) ==> q.isError == events[r].isError && q.stats == events[r].stats
  {
    var n, id := |events| - 1, p.id;
    var front := events[..n];
    forall r ensures Resulted(events, b, r, id) <==> Resulted(front, b, r, id) || (r == n && Resulted(events, b, n, id)) {
      OneMoreResult(events, b, id, r);
    }
    if Resulted(events, b, n, id) {
      assert q.resolved;
    } else {
      assert forall r :: Resulted(events, b, r, id) <==> Resulted(front, b, r, id);
      forall r | LastResult(events, b, r, id) ensures q.isError == events[r].isError && q.stats == events[r].stats {
        assert Resulted(front, b, r, id) && LastResult(front, b, r, id) && front[r] == events[r];
      }
    }
  }

  lemma {:induction false} CallOn(p: Part, q: Part, events: seq<Event>, b: nat)
    requires events != [] && b < |events| - 1 && ReadsAs(p, events[..|events| - 1], b) && ChipMoves(p, events[|events| - 1], q)
    ensures exists c :: LastCall(events, b, c, q.id) && q.call == events[c].call
  {
    var n, id := |events| - 1, p.id;
    var front := events[..n];
    if Called(events, b, n, id) {
      assert LastCall(events, b, n, id);
    } else {
      var c :| LastCall(front, b, c, id) && p.call == front[c].call;
      forall d | c < d < |events| ensures !Called(events, b, d, id) {
        assert d < n ==> front[d] == events[d] && !Called(front, b, d, id);
      }
      assert LastCall(events, b, c, id);
    }
  }

  lemma {:induction false} ReadsOn(p: Part, q: Part, events: seq<Event>, b: nat)
    requires events != [] && b < |events| - 1 && ReadsAs(p, events[..|events| - 1], b) && ChipMoves(p, events[|events| - 1], q)
    ensures ReadsAs(q, events, b)
  {
    ResultOn(p, q, events, b);
    CallOn(p, q, events, b);
    hide LastCall, LastResult, Called, Resulted;
  }

  // ── a subagent's chip ─────────────────────────────────────────────────────

  ghost predicate Shows(parts: seq<Part>, id: string, status: Option<SubagentStatus>) {
    exists i :: 0 <= i < |parts| && IsTool(parts[i], id) && parts[i].status == status
  }

  ghost predicate ShowsEnd(parts: seq<Part>, id: string) {
    Shows(parts, id, Some(Settled)) || Shows(parts, id, Some(SubagentStatus.Failed))
  }

  /** The chip has stood from the event at `m` on. */
  ghost predicate Standing(events: seq<Event>, m: nat, id: string)
    requires m <= |events|
  {
    forall j :: m <= j <= |events| ==> HasTool(Story(events[..j]), id)
  }

  lemma {:induction false} StoodBefore(events: seq<Event>, m: nat, id: string)
    requires m < |events| && Standing(events, m, id)
    ensures var front := events[..|events| - 1];
      Standing(front, m, id) && front[..m] == events[..m] && HasTool(Story(front), id) && HasTool(Story(events), id)
  {
    var n, front := |events|, events[..|events| - 1];
    hide Story, HasTool;
    forall j | m <= j <= |front| ensures HasTool(Story(front[..j]), id) {
      assert front[..j] == events[..j];
    }
    assert front[..n - 1] == front && events[..n] == events;
  }

  /** While its chip stands, a subagent that has ended is shown running again only after a new
  assignment. */
  lemma {:induction false} ReopenedByAssignment(events: seq<Event>, m: nat, id: string) returns (r: nat)
    requires m <= |events| && Standing(events, m, id) && ShowsEnd(Story(events[..m]), id) && Shows(Story(events), id, Some(Running))
    ensures m <= r < |events| && events[r] == Subagent(id, Assigned)
    decreases |events|
  {
    var n := |events|;
    hide Story, Became, Once, Shows, HasTool, Standing;
    if m == n {
      assert events[..n] == events;
      EndsShown(events, id);
      assert false;
    }
    StoodBefore(events, m, id);
    var front, last := events[..n - 1], events[n - 1];
    StoryNext(events);
    ChipBefore(Story(front), last, Story(events), id);
    if last == Subagent(id, Assigned) {
      r := n - 1;
    } else {
      if Shows(Story(front), id, None) {
        NeverBlankAgain(front, m, id);
        OneStatus(Story(front), id);
      }
      r := ReopenedByAssignment(front, m, id);
    }
  }

  lemma {:induction false} EndsShown(events: seq<Event>, id: string)
    requires ShowsEnd(Story(events), id)
    ensures !Shows(Story(events), id, Some(Running))
  {
    hide Story, Shows, Once;
    StoryOnce(events);
    OneStatus(Story(events), id);
  }

  lemma {:induction false} NotTwins(parts: seq<Part>, i: nat, j: nat)
    requires Once(parts) && i < j < |parts|
    ensures !Twins(parts[i], parts[j])
  {
  }

  lemma {:induction false} OneStatus(parts: seq<Part>, id: string)
    requires Once(parts)
    ensures forall s, t :: Shows(parts, id, s) && Shows(parts, id, t) ==> s == t
  {
    forall s, t | Shows(parts, id, s) && Shows(parts, id, t) ensures s == t {
      var i :| 0 <= i < |parts| && IsTool(parts[i], id) && parts[i].status == s;
      var j :| 0 <= j < |parts| && IsTool(parts[j], id) && parts[j].status == t;
      hide Once;
      if i < j {
        NotTwins(parts, i, j);
      } else if j < i {
        NotTwins(parts, j, i);
      }
    }
  }

  /** Shown running, a chip showed running or nothing before, or has just been assigned. */
  lemma {:induction false} ChipBefore(was: seq<Part>, e: Event, now: seq<Part>, id: string)
    requires Once(was) && Became(was, e, now) && HasTool(was, id) && Shows(now, id, Some(Running))
    ensures e == Subagent(id, Assigned) || Shows(was, id, Some(Running)) || Shows(was, id, None)
  {
    var i :| 0 <= i < |now| && IsTool(now[i], id) && now[i].status == Some(Running);
    var k := ChipFrom(was, e, now, i);
    assert Shows(was, id, was[k].status);
  }

  ghost predicate ShowsSome(parts: seq<Part>, id: string) {
    exists status :: status != None && Shows(parts, id, status)
  }

  /** A chip that showed a status shows one ever after. */
  lemma {:induction false} NeverBlankAgain(events: seq<Event>, m: nat, id: string)
    requires m <= |events| && Standing(events, m, id) && ShowsEnd(Story(events[..m]), id)
    ensures ShowsSome(Story(events), id)
    decreases |events|
  {
    var n := |events|;
    hide Story, Became, Once, Shows, HasTool, Standing;
    if m < n {
      StoodBefore(events, m, id);
      hide ShowsSome, ShowsEnd;
      NeverBlankAgain(events[..n - 1], m, id);
      StoryNext(events);
      StillShows(Story(events[..n - 1]), events[n - 1], Story(events), id);
    } else {
      assert events[..n] == events;
    }
  }

  lemma {:induction false} StillShows(was: seq<Part>, e: Event, now: seq<Part>, id: string)
    requires Once(was) && Became(was, e, now) && HasTool(now, id) && ShowsSome(was, id)
    ensures ShowsSome(now, id)
  {
    hide Became, Once;
    var status :| status != None && Shows(was, id, status);
    var i :| 0 <= i < |was| && IsTool(was[i], id) && was[i].status == status;
    var j :| 0 <= j < |now| && IsTool(now[j], id);
    var k := ChipFrom(was, e, now, j);
    assert Shows(was, id, was[k].status);
    OneStatus(was, id);
    assert Shows(now, id, now[j].status);
  }

  // ── a question ────────────────────────────────────────────────────────────

  ghost predicate HasQuestion(parts: seq<Part>, requestId: string) {
    exists i :: 0 <= i < |parts| && parts[i].Input? && parts[i].requestId == requestId
  }

  /** The question came with the request at `b`, under an id no part had, and has stood since. */
  ghost predicate AskedSince(events: seq<Event>, b: nat, requestId: string) {
    && b < |events| && events[b] == InputRequested(requestId) && !HasId(Story(events[..b]), "in-" + requestId)
    && forall j :: b < j <= |events| ==> HasQuestion(Story(events[..j]), requestId)
  }

  ghost predicate AnsweredSince(events: seq<Event>, b: nat, requestId: string) {
    exists r :: b < r < |events| && events[r] == InputResolved(requestId)
  }

  /** A question is marked resolved exactly if it was answered since it was asked. */
  lemma {:induction false} QuestionTold(events: seq<Event>, i: nat) returns (b: nat)
    requires i < |Story(events)| && Story(events)[i].Input?
    ensures var p := Story(events)[i];
      AskedSince(events, b, p.requestId) && (p.resolved <==> AnsweredSince(events, b, p.requestId))
    decreases |events|
  {
    var n := |events|;
    var front, last, p := events[..n - 1], events[n - 1], Story(events)[i];
    assert HasQuestion(Story(events), p.requestId);
    StoryNext(events);
    hide Story, Became, Once, AskedSince, AnsweredSince, HasId, HasQuestion;
    QuestionStep(Story(front), last, Story(events), i);
    if i < |Story(front)| {
      b := QuestionTold(front, i);
      AskedOn(events, b, p.requestId);
      AnsweredMore(events, b, p.requestId);
    } else {
      b := n - 1;
      AskedNow(events, p.requestId);
    }
  }

  lemma {:induction false} AskedNow(events: seq<Event>, requestId: string)
    requires events != [] && events[|events| - 1] == InputRequested(requestId)
    requires !HasId(Story(events[..|events| - 1]), "in-" + requestId) && HasQuestion(Story(events), requestId)
    ensures AskedSince(events, |events| - 1, requestId) && !AnsweredSince(events, |events| - 1, requestId)
  {
    hide Story, HasId, HasQuestion;
    assert events[..|events|] == events;
  }

  lemma {:induction false} AskedOn(events: seq<Event>, b: nat, requestId: string)
    requires events != [] && AskedSince(events[..|events| - 1], b, requestId) && HasQuestion(Story(events), requestId)
    ensures AskedSince(events, b, requestId)
  {
    var front := events[..|events| - 1];
    assert front[..b] == events[..b] && events[..|events|] == events;
    forall j | b < j <= |events| ensures HasQuestion(Story(events[..j]), requestId) {
      if j < |events| {
        assert front[..j] == events[..j];
      }
    }
  }

  lemma {:induction false} AnsweredMore(events: seq<Event>, b: nat, requestId: string)
    requires events != [] && b < |events| - 1
    ensures AnsweredSince(events, b, requestId)
      <==> AnsweredSince(events[..|events| - 1], b, requestId) || events[|events| - 1] == InputResolved(requestId)
  {
    var front := events[..|events| - 1];
    assert forall r :: b < r < |front| ==> front[r] == events[r];
    if AnsweredSince(front, b, requestId) {
      var r :| b < r < |front| && front[r] == InputResolved(requestId);
      assert events[r] == InputResolved(requestId);
    }
  }

  lemma {:induction false} QuestionStep(was: seq<Part>, e: Event, now: seq<Part>, i: nat)
    requires Once(was) && Became(was, e, now) && i < |now| && now[i].Input?
    ensures if i < |was| then
        && was[i].Input? && was[i].requestId == now[i].requestId
        && now[i].resolved == (was[i].resolved || e == InputResolved(now[i].requestId))
      else
        && i == |was| == |now| - 1 && e == InputRequested(now[i].requestId) && !now[i].resolved
        && !HasId(was, "in-" + now[i].requestId)
  {
    if |now| > |was| {
      Appended(was, e, now);
    }
  }
}
