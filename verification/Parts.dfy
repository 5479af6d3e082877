/** Streaming agent events folded into message parts, and oversized messages split into entries
(crates/doc/src/parts.rs:274-504, 629-699). */
module Parts {
  import opened Wrappers
  import opened Seqs
  import opened Hlc
  import opened ByteSeq

  const MSG_INLINE_MAX := 256 * 1024

  datatype SubagentStatus = Running | Settled | Failed

  datatype Call = Call(json: string, spawn: bool)

  datatype Part =
    | Text(id: string, text: Bytes)
    | Reasoning(id: string, text: Bytes)
    | Image(id: string, path: string)
    | Tool(id: string, call: Call, isError: bool, resolved: bool, stats: Option<string>, status: Option<SubagentStatus>)
    | Input(id: string, requestId: string, resolved: bool)
    | Error(id: string, message: Bytes)
    | Fork(id: string, sourceChat: string, sourceTitle: string)

  /** What arrives from a subagent: its end, a new assignment (user text or a confirmed turn
  boundary), or anything else. */
  datatype Inner = Finished(errored: bool) | Assigned | Traffic

  datatype Event =
    | SessionStarted
    | Steered
    | TextDelta(text: Bytes)
    | ReasoningDelta(text: Bytes)
    | GeneratedImage(id: string, path: string)
    | ToolCall(id: string, call: Call)
    | ToolResult(id: string, isError: bool, stats: Option<string>)
    | InputRequested(requestId: string)
    | InputResolved(requestId: string)
    | Broke(message: Bytes)
    | Done(error: Option<Bytes>)
    | Subagent(parent: string, inner: Inner)
    | Other

  /** An id minted from the part's position. */
  function Minted(prefix: char, n: nat): string {
    [prefix] + Pad(n, 1)
  }

  /** No id the harness sends looks like a minted text id. */
  ghost predicate HarnessId(id: string) {
    forall n: nat :: id != Minted('t', n) && id != Minted('r', n)
  }

  // ── what one event leaves ─────────────────────────────────────────────────

  function ResolveTool(p: Part, id: string, isError: bool, stats: Option<string>): Part {
    if p.Tool? && p.id == id then p.(isError := isError, resolved := true, stats := stats) else p
  }

  function ResolveInput(p: Part, requestId: string): Part {
    if p.Input? && p.requestId == requestId then p.(resolved := true) else p
  }

  function StatusFrom(inner: Inner): Option<SubagentStatus> {
    match inner
    case Finished(errored) => Some(if errored then Failed else Settled)
    case Assigned => Some(Running)
    case Traffic => None
  }

  /** Tagged traffic marks a spawn chip running, but a settled chip only reopens on a status. */
  function MarkSubagent(p: Part, id: string, inner: Inner): Part {
    var status := StatusFrom(inner);
    if !(p.Tool? && p.id == id && p.call.spawn) then p
    else if status.Some? then p.(status := status)
    else if p.status == Some(Settled) || p.status == Some(Failed) then p
    else p.(status := Some(Running))
  }

  /** A change the source makes to every part in turn. */
  datatype Change = Resolve(id: string, isError: bool, stats: Option<string>) | Answer(requestId: string) | Mark(id: string, inner: Inner)

  function Changed(c: Change, p: Part): Part {
    match c
    case Resolve(id, isError, stats) => ResolveTool(p, id, isError, stats)
    case Answer(requestId) => ResolveInput(p, requestId)
    case Mark(id, inner) => MarkSubagent(p, id, inner)
  }

  function Each(parts: seq<Part>, c: Change): (out: seq<Part>)
    ensures |out| == |parts| && forall i :: 0 <= i < |parts| ==> out[i] == Changed(c, parts[i])
  {
    seq(|parts|, i requires 0 <= i < |parts| => Changed(c, parts[i]))
  }

  predicate Hits(p: Part, id: string, toolsOnly: bool) {
    p.id == id && (toolsOnly ==> p.Tool?)
  }

  /** The first part of that id. */
  function First(parts: seq<Part>, id: string, toolsOnly: bool): (at: Option<nat>)
    ensures at.Some? ==> at.value < |parts| && Hits(parts[at.value], id, toolsOnly) && forall i :: 0 <= i < at.value ==> !Hits(parts[i], id, toolsOnly)
    ensures at == None ==> forall i :: 0 <= i < |parts| ==> !Hits(parts[i], id, toolsOnly)
    decreases |parts|
  {
    if parts == [] then None
    else if Hits(parts[0], id, toolsOnly) then Some(0)
    else
      var rest := First(parts[1..], id, toolsOnly);
      if rest == None then
        assert forall i :: 1 <= i < |parts| ==> parts[i] == parts[1..][i - 1];
        None
      else
        assert forall i :: 1 <= i <= rest.value ==> parts[i] == parts[1..][i - 1];
        Some(rest.value + 1)
  }

  function WithText(parts: seq<Part>, text: Bytes): seq<Part> {
    if parts != [] && parts[|parts| - 1].Text?
    then parts[|parts| - 1 := parts[|parts| - 1].(text := parts[|parts| - 1].text + text)]
    else parts + [Text(Minted('t', |parts|), text)]
  }

  function WithReasoning(parts: seq<Part>, text: Bytes): seq<Part> {
    if text == [] then parts
    else if parts != [] && parts[|parts| - 1].Reasoning?
    then parts[|parts| - 1 := parts[|parts| - 1].(text := parts[|parts| - 1].text + text)]
    else parts + [Reasoning(Minted('r', |parts|), text)]
  }

  function WithTool(parts: seq<Part>, id: string, call: Call): seq<Part> {
    var at := First(parts, id, true);
    if at.Some? then parts[at.value := parts[at.value].(call := call)]
    else parts + [Tool(id, call, false, false, None, None)]
  }

  function WithImage(parts: seq<Part>, id: string, path: string): seq<Part> {
    var at := First(parts, id, false);
    if at.Some? then parts[at.value := Image(id, path)] else parts + [Image(id, path)]
  }

  function WithInput(parts: seq<Part>, requestId: string): seq<Part> {
    if First(parts, "in-" + requestId, false).Some? then parts
    else parts + [Input("in-" + requestId, requestId, false)]
  }

  function Folded(parts: seq<Part>, e: Event): seq<Part> {
    match e
    case SessionStarted => []
    case Steered => []
    case TextDelta(text) => WithText(parts, text)
    case ReasoningDelta(text) => WithReasoning(parts, text)
    case GeneratedImage(id, path) => WithImage(parts, id, path)
    case ToolCall(id, call) => WithTool(parts, id, call)
    case ToolResult(id, isError, stats) => Each(parts, Resolve(id, isError, stats))
    case InputRequested(requestId) => WithInput(parts, requestId)
    case InputResolved(requestId) => Each(parts, Answer(requestId))
    case Broke(message) => parts + [Error(Minted('e', |parts|), message)]
    case Done(error) => if error.Some? then parts + [Error(Minted('e', |parts|), error.value)] else parts
    case Subagent(parent, inner) => Each(parts, Mark(parent, inner))
    case Other => parts
  }

  /** The parts after these events, from nothing. */
  function Story(events: seq<Event>): seq<Part>
    decreases |events|
  {
    if events == [] then [] else Folded(Story(events[..|events| - 1]), events[|events| - 1])
  }

  // ── the same, part by part ────────────────────────────────────────────────

  ghost predicate IsTool(p: Part, id: string) {
    p.Tool? && p.id == id
  }

  ghost predicate HasTool(parts: seq<Part>, id: string) {
    exists i :: 0 <= i < |parts| && IsTool(parts[i], id)
  }

  ghost predicate HasId(parts: seq<Part>, id: string) {
    exists i :: 0 <= i < |parts| && parts[i].id == id
  }

  ghost predicate Twins(p: Part, q: Part) {
    p.id == q.id && ((p.Tool? && q.Tool?) || (p.Input? && q.Input?))
  }

  /** At most one tool chip, and at most one question, under each id; a question's id names its
  request. */
  ghost predicate Once(parts: seq<Part>) {
    && (forall i, j {:trigger Twins(parts[i], parts[j])} :: 0 <= i < j < |parts| ==> !Twins(parts[i], parts[j]))
    && (forall i :: 0 <= i < |parts| && parts[i].Input? ==> parts[i].id == "in-" + parts[i].requestId)
  }

  /** Which part an event touches and what it makes of it; all others stay, in their order. */
  ghost predicate Became(was: seq<Part>, e: Event, now: seq<Part>) {
    var n := |was|;
    match e
    case SessionStarted => now == []
    case Steered => now == []
    case TextDelta(text) =>
      if n > 0 && was[n - 1].Text? then now == was[..n - 1] + [Text(was[n - 1].id, was[n - 1].text + text)]
      else now == was + [Text("t" + Pad(n, 1), text)]
    case ReasoningDelta(text) =>
      if text == [] then now == was
      else if n > 0 && was[n - 1].Reasoning? then now == was[..n - 1] + [Reasoning(was[n - 1].id, was[n - 1].text + text)]
      else now == was + [Reasoning("r" + Pad(n, 1), text)]
    case GeneratedImage(id, path) =>
      if HasId(was, id) then exists at :: IsFirst(was, id, at) && now == was[at := Image(id, path)]
      else now == was + [Image(id, path)]
    case ToolCall(id, call) =>
      if HasTool(was, id) then
        |now| == n && forall i | 0 <= i < n ::
          now[i] == if IsTool(was[i], id) then Tool(id, call, was[i].isError, was[i].resolved, was[i].stats, was[i].status) else was[i]
      else now == was + [Tool(id, call, false, false, None, None)]
    case ToolResult(id, isError, stats) =>
      |now| == n && forall i | 0 <= i < n ::
        now[i] == if IsTool(was[i], id) then Tool(id, was[i].call, isError, true, stats, was[i].status) else was[i]
    case InputRequested(requestId) =>
      now == if HasId(was, "in-" + requestId) then was else was + [Input("in-" + requestId, requestId, false)]
    case InputResolved(requestId) =>
      |now| == n && forall i | 0 <= i < n ::
        now[i] == if was[i].Input? && was[i].requestId == requestId then Input(was[i].id, requestId, true) else was[i]
    case Broke(message) => now == was + [Error("e" + Pad(n, 1), message)]
    case Done(error) => now == if error.Some? then was + [Error("e" + Pad(n, 1), error.value)] else was
    case Subagent(parent, inner) =>
      |now| == n && forall i | 0 <= i < n ::
        now[i] == if IsTool(was[i], parent) && was[i].call.spawn
        then Tool(parent, was[i].call, was[i].isError, was[i].resolved, was[i].stats, Lifecycle(was[i].status, inner)) else was[i]
    case Other => now == was
  }

  ghost predicate IsFirst(parts: seq<Part>, id: string, at: int) {
    0 <= at < |parts| && parts[at].id == id && forall i :: 0 <= i < at ==> parts[i].id != id
  }

  /** An end or a new assignment says what the chip shows; other traffic only opens one that has not
  ended. */
  ghost function Lifecycle(status: Option<SubagentStatus>, inner: Inner): Option<SubagentStatus> {
    match (status, inner)
    case (_, Finished(errored)) => if errored then Some(Failed) else Some(Settled)
    case (_, Assigned) => Some(Running)
    case (Some(Failed), Traffic) => Some(Failed)
    case (Some(Settled), Traffic) => Some(Settled)
    case (_, Traffic) => Some(Running)
  }

  lemma {:induction false} FoldedBecame(parts: seq<Part>, e: Event)
    requires Once(parts)
    ensures Became(parts, e, Folded(parts, e))
  {
    match e {
      case GeneratedImage(id, path) => ImageBecame(parts, id);
      case ToolCall(id, call) => ToolBecame(parts, id, call);
      case InputRequested(requestId) => InputBecame(parts, requestId);
      case _ =>
    }
  }

  lemma {:induction false} ImageBecame(parts: seq<Part>, id: string)
    ensures var at := First(parts, id, false); if HasId(parts, id) then at.Some? && IsFirst(parts, id, at.value) else at == None
  {
  }

  lemma {:induction false} InputBecame(parts: seq<Part>, requestId: string)
    ensures First(parts, "in-" + requestId, false).Some? <==> HasId(parts, "in-" + requestId)
  {
  }

  lemma {:induction false} ToolBecame(parts: seq<Part>, id: string, call: Call)
    requires Once(parts)
    ensures Became(parts, ToolCall(id, call), WithTool(parts, id, call))
  {
    var at := First(parts, id, true);
    if at.Some? {
      assert IsTool(parts[at.value], id);
      forall i | 0 <= i < |parts| && i != at.value ensures !IsTool(parts[i], id) {
        assert i < at.value ==> !Hits(parts[i], id, true);
        assert i > at.value ==> !Twins(parts[at.value], parts[i]);
      }
    } else {
      assert forall i :: 0 <= i < |parts| ==> !Hits(parts[i], id, true);
    }
  }

  lemma {:induction false} OnceKept(was: seq<Part>, e: Event, now: seq<Part>)
    requires Once(was) && Became(was, e, now)
    ensures Once(now)
  {
    if |now| <= |was| {
      if now != [] {
        SamePlaces(was, e, now);
        forall i, j | 0 <= i < j < |now| ensures !Twins(now[i], now[j]) {
          assert !Twins(was[i], was[j]);
        }
      }
    } else {
      Appended(was, e, now);
      hide Became;
      forall i, j | 0 <= i < j < |now| ensures !Twins(now[i], now[j]) {
        if j < |was| {
          assert !Twins(was[i], was[j]) && now[i] == was[i] && now[j] == was[j];
        }
      }
    }
  }

  /** A part left in its place is of the kind and id it was, or has become an image. */
  lemma {:induction false} SamePlaces(was: seq<Part>, e: Event, now: seq<Part>)
    requires Became(was, e, now) && |now| <= |was| && now != []
    ensures |now| == |was| && forall i :: 0 <= i < |now| ==> SamePlace(was[i], now[i])
  {
  }

  ghost predicate SamePlace(p: Part, q: Part) {
    || q.Image?
    || (q.id == p.id && (q.Tool? ==> p.Tool?) && (q.Input? ==> p.Input? && p.requestId == q.requestId))
  }

  /** A part added is a chip or a question only under an id no such part had. */
  lemma {:induction false} Appended(was: seq<Part>, e: Event, now: seq<Part>)
    requires Once(was) && Became(was, e, now) && |now| > |was|
    ensures |now| == |was| + 1 && now[..|was|] == was && (forall i :: 0 <= i < |was| ==> now[i] == was[i] && !Twins(was[i], now[|was|]))
    ensures now[|was|].Input? ==> now[|was|].id == "in-" + now[|was|].requestId
  {
    assert forall i :: 0 <= i < |was| && e.ToolCall? && IsTool(was[i], e.id) ==> HasTool(was, e.id);
    assert forall i :: 0 <= i < |was| && e.InputRequested? && was[i].id == "in-" + e.requestId ==> HasId(was, "in-" + e.requestId);
  }

  // ── what a transcript reads ───────────────────────────────────────────────

  /** The text shown, end to end. */
  function Texts(parts: seq<Part>): Bytes
    decreases |parts|
  {
    if parts == [] then []
    else Texts(parts[..|parts| - 1]) + (if parts[|parts| - 1].Text? then parts[|parts| - 1].text else [])
  }

  function Reasonings(parts: seq<Part>): Bytes
    decreases |parts|
  {
    if parts == [] then []
    else Reasonings(parts[..|parts| - 1]) + (if parts[|parts| - 1].Reasoning? then parts[|parts| - 1].text else [])
  }

  predicate Apart(p: Part, q: Part) {
    !(p.Text? && q.Text?) && !(p.Reasoning? && q.Reasoning?)
  }

  /** A break between two runs of text always shows. */
  predicate NoAdjacent(parts: seq<Part>) {
    forall i {:trigger parts[i]} :: 0 < i < |parts| ==> Apart(parts[i - 1], parts[i])
  }

  ghost predicate BodyIds(parts: seq<Part>) {
    forall i :: 0 <= i < |parts| && (parts[i].Text? || parts[i].Reasoning?) ==> !HarnessId(parts[i].id)
  }

  predicate SameBody(p: Part, q: Part) {
    p.Text? || q.Text? || p.Reasoning? || q.Reasoning? ==> p == q
  }

  /** Parts that differ in other kinds only read the same. */
  lemma {:induction false} SameBodies(x: seq<Part>, y: seq<Part>)
    requires |x| == |y| && forall i :: 0 <= i < |x| ==> SameBody(x[i], y[i])
    ensures Texts(x) == Texts(y) && Reasonings(x) == Reasonings(y)
    decreases |x|
  {
    if x != [] {
      assert SameBody(x[|x| - 1], y[|y| - 1]);
      SameBodies(x[..|x| - 1], y[..|y| - 1]);
    }
  }

  lemma {:induction false} SameBreaks(x: seq<Part>, y: seq<Part>)
    requires |x| == |y| && forall i :: 0 <= i < |x| ==> SameBody(x[i], y[i])
    requires NoAdjacent(x) && BodyIds(x)
    ensures NoAdjacent(y) && BodyIds(y)
  {
    forall i | 0 < i < |y| ensures Apart(y[i - 1], y[i]) {
      assert SameBody(x[i - 1], y[i - 1]) && SameBody(x[i], y[i]) && Apart(x[i - 1], x[i]);
    }
    forall i | 0 <= i < |y| && (y[i].Text? || y[i].Reasoning?) ensures !HarnessId(y[i].id) {
      assert SameBody(x[i], y[i]);
    }
  }

  lemma {:induction false} PushPart(parts: seq<Part>, p: Part)
    requires NoAdjacent(parts) && BodyIds(parts)
    requires parts != [] ==> Apart(parts[|parts| - 1], p)
    requires p.Text? || p.Reasoning? ==> !HarnessId(p.id)
    ensures NoAdjacent(parts + [p]) && BodyIds(parts + [p])
    ensures Texts(parts + [p]) == Texts(parts) + (if p.Text? then p.text else [])
    ensures Reasonings(parts + [p]) == Reasonings(parts) + (if p.Reasoning? then p.text else [])
  {
    var more := parts + [p];
    assert more[..|more| - 1] == parts;
    forall i | 0 < i < |more| ensures Apart(more[i - 1], more[i]) {
      if i < |parts| {
        assert Apart(parts[i - 1], parts[i]);
      }
    }
  }

  /** The last body grows in place. */
  lemma {:induction false} GrowLast(parts: seq<Part>, text: Bytes)
    requires parts != [] && (parts[|parts| - 1].Text? || parts[|parts| - 1].Reasoning?) && NoAdjacent(parts) && BodyIds(parts)
    ensures var last := parts[|parts| - 1];
      var after := parts[|parts| - 1 := last.(text := last.text + text)];
      && NoAdjacent(after) && BodyIds(after)
      && Texts(after) == Texts(parts) + (if last.Text? then text else [])
      && Reasonings(after) == Reasonings(parts) + (if last.Reasoning? then text else [])
  {
    var last := parts[|parts| - 1];
    var grown := last.(text := last.text + text);
    var front := parts[..|parts| - 1];
    GrownBodies(front, last, grown, text);
    GrownBreaks(parts, grown);
    assert parts == front + [last] && parts[|parts| - 1 := grown] == front + [grown];
  }

  lemma {:induction false} GrownBodies(front: seq<Part>, last: Part, grown: Part, text: Bytes)
    requires (last.Text? || last.Reasoning?) && grown == last.(text := last.text + text)
    ensures Texts(front + [grown]) == Texts(front + [last]) + (if last.Text? then text else [])
    ensures Reasonings(front + [grown]) == Reasonings(front + [last]) + (if last.Reasoning? then text else [])
  {
    var x, y := front + [last], front + [grown];
    assert x[..|x| - 1] == front && y[..|y| - 1] == front;
    assert Texts(front) + (last.text + text) == Texts(front) + last.text + text;
    assert Reasonings(front) + (last.text + text) == Reasonings(front) + last.text + text;
  }

  lemma {:induction false} GrownBreaks(parts: seq<Part>, grown: Part)
    requires parts != [] && NoAdjacent(parts) && BodyIds(parts)
    requires var last := parts[|parts| - 1];
      grown.id == last.id && (grown.Text? <==> last.Text?) && (grown.Reasoning? <==> last.Reasoning?)
    ensures NoAdjacent(parts[|parts| - 1 := grown]) && BodyIds(parts[|parts| - 1 := grown])
  {
    var after := parts[|parts| - 1 := grown];
    forall i | 0 < i < |after| ensures Apart(after[i - 1], after[i]) {
      assert Apart(parts[i - 1], parts[i]);
    }
    forall i | 0 <= i < |after| && (after[i].Text? || after[i].Reasoning?) ensures !HarnessId(after[i].id) {
      assert after[i].id == parts[i].id;
    }
  }

  function TextSince(before: Bytes, e: Event): Bytes {
    if e.SessionStarted? || e.Steered? then [] else if e.TextDelta? then before + e.text else before
  }

  function ReasoningSince(before: Bytes, e: Event): Bytes {
    if e.SessionStarted? || e.Steered? then [] else if e.ReasoningDelta? then before + e.text else before
  }

  lemma {:induction false} ImageConserves(parts: seq<Part>, e: Event)
    requires e.GeneratedImage? && HarnessId(e.id) && NoAdjacent(parts) && BodyIds(parts)
    ensures var after := Folded(parts, e);
      NoAdjacent(after) && BodyIds(after) && Texts(after) == Texts(parts) && Reasonings(after) == Reasonings(parts)
  {
    hide Texts, Reasonings, NoAdjacent, BodyIds;
    var at := First(parts, e.id, false);
    if at.Some? {
      NotABody(parts, at.value);
      SameBodies(parts, Folded(parts, e));
      SameBreaks(parts, Folded(parts, e));
    } else {
      PushPart(parts, Image(e.id, e.path));
    }
  }

  /** Streaming loses no text, repeats none, and keeps the runs apart. */
  lemma {:induction false} FoldConserves(parts: seq<Part>, e: Event)
    requires NoAdjacent(parts) && BodyIds(parts) && (e.GeneratedImage? ==> HarnessId(e.id))
    ensures var after := Folded(parts, e);
      && NoAdjacent(after) && BodyIds(after)
      && Texts(after) == TextSince(Texts(parts), e) && Reasonings(after) == ReasoningSince(Reasonings(parts), e)
  {
    hide Texts, Reasonings, NoAdjacent, BodyIds;
    var after := Folded(parts, e);
    match e {
      case SessionStarted => NothingYet();
      case Steered => NothingYet();
      case TextDelta(text) =>
        if parts != [] && parts[|parts| - 1].Text? {
          GrowLast(parts, text);
        } else {
          PushPart(parts, Text(Minted('t', |parts|), text));
        }
      case ReasoningDelta(text) =>
        if text == [] {
        } else if parts != [] && parts[|parts| - 1].Reasoning? {
          GrowLast(parts, text);
        } else {
          PushPart(parts, Reasoning(Minted('r', |parts|), text));
        }
      case GeneratedImage(_, _) => ImageConserves(parts, e);
      case ToolCall(id, call) =>
        if First(parts, id, true).Some? {
          SameBodies(parts, after);
          SameBreaks(parts, after);
        } else {
          PushPart(parts, Tool(id, call, false, false, None, None));
        }
      case ToolResult(id, isError, stats) =>
        SameBodies(parts, after);
        SameBreaks(parts, after);
      case InputRequested(requestId) =>
        if after != parts {
          PushPart(parts, Input("in-" + requestId, requestId, false));
        }
      case InputResolved(requestId) =>
        SameBodies(parts, after);
        SameBreaks(parts, after);
      case Broke(message) => PushPart(parts, Error(Minted('e', |parts|), message));
      case Done(error) =>
        if error.Some? {
          PushPart(parts, Error(Minted('e', |parts|), error.value));
        }
      case Subagent(_, _) =>
        SameBodies(parts, after);
        SameBreaks(parts, after);
      case Other =>
    }
  }

  lemma {:induction false} NothingYet()
    ensures Texts([]) == [] && Reasonings([]) == [] && NoAdjacent([]) && BodyIds([])
  {
  }

  lemma {:induction false} NotABody(parts: seq<Part>, i: nat)
    requires BodyIds(parts) && i < |parts| && HarnessId(parts[i].id)
    ensures !parts[i].Text? && !parts[i].Reasoning?
  {
  }

  // ── the accumulator ───────────────────────────────────────────────────────

  /** The parts are the story of these events, with this text and reasoning in them. */
  ghost predicate Tells(parts: seq<Part>, text: Bytes, reasoning: Bytes, events: seq<Event>) {
    && NoAdjacent(parts) && BodyIds(parts) && Texts(parts) == text && Reasonings(parts) == reasoning
    && parts == Story(events) && Once(parts)
  }

  lemma {:induction false} TellsMore(parts: seq<Part>, text: Bytes, reasoning: Bytes, events: seq<Event>, e: Event)
    requires Tells(parts, text, reasoning, events) && (e.GeneratedImage? ==> HarnessId(e.id))
    ensures Tells(Folded(parts, e), TextSince(text, e), ReasoningSince(reasoning, e), events + [e])
    ensures Became(parts, e, Folded(parts, e))
  {
    FoldConserves(parts, e);
    FoldedBecame(parts, e);
    OnceKept(parts, e, Folded(parts, e));
    assert (events + [e])[..|events|] == events;
    hide Texts, Reasonings, NoAdjacent, BodyIds, HarnessId, Folded, Became, Once;
  }

  class Accumulator {
    var parts: seq<Part>
    /** Every delta since the last reset, end to end. */
    ghost var text: Bytes
    ghost var reasoning: Bytes
    /** Every event there was. */
    ghost var events: seq<Event>

    ghost predicate Valid()
      reads this
    {
      Tells(parts, text, reasoning, events)
    }

    constructor ()
      ensures Valid() && parts == [] && text == [] && reasoning == [] && events == []
    {
      parts, text, reasoning, events := [], [], [], [];
    }

    /** Fold one event in place. Image ids are the harness's own. */
    method Fold(e: Event)
      requires Valid() && (e.GeneratedImage? ==> HarnessId(e.id))
      modifies this
      ensures Valid() && Became(old(parts), e, parts) && events == old(events) + [e]
      ensures text == TextSince(old(text), e) && reasoning == ReasoningSince(old(reasoning), e)
    {
      TellsMore(parts, text, reasoning, events, e);
      hide Tells, HarnessId, Folded, Became;
      text, reasoning, events := TextSince(text, e), ReasoningSince(reasoning, e), events + [e];
      FoldParts(e);
    }

    method FoldParts(e: Event)
      modifies `parts
      ensures parts == Folded(old(parts), e)
    {
      hide Minted, Changed, Hits, WithText, WithReasoning, WithImage, WithTool, WithInput, Each;
      match e {
        case SessionStarted => parts := [];
        case Steered => parts := [];
        case TextDelta(delta) => AppendText(delta);
        case ReasoningDelta(delta) => AppendReasoning(delta);
        case GeneratedImage(id, path) => PutImage(id, path);
        case ToolCall(id, call) => PutTool(id, call);
        case ToolResult(id, isError, stats) => Visit(Resolve(id, isError, stats));
        case InputRequested(requestId) => PutInput(requestId);
        case InputResolved(requestId) => Visit(Answer(requestId));
        case Broke(message) => parts := parts + [Error(Minted('e', |parts|), message)];
        case Done(error) =>
          if error.Some? {
            parts := parts + [Error(Minted('e', |parts|), error.value)];
          }
        case Subagent(parent, inner) => Visit(Mark(parent, inner));
        case Other =>
      }
    }

    method AppendText(delta: Bytes)
      modifies `parts
      ensures parts == WithText(old(parts), delta)
    {
      if |parts| > 0 && parts[|parts| - 1].Text? {
        var tail := parts[|parts| - 1];
        parts := parts[|parts| - 1 := tail.(text := tail.text + delta)];
      } else {
        parts := parts + [Text(Minted('t', |parts|), delta)];
      }
    }

    method AppendReasoning(delta: Bytes)
      modifies `parts
      ensures parts == WithReasoning(old(parts), delta)
    {
      if |delta| == 0 {
        return;
      }
      if |parts| > 0 && parts[|parts| - 1].Reasoning? {
        var tail := parts[|parts| - 1];
        parts := parts[|parts| - 1 := tail.(text := tail.text + delta)];
      } else {
        parts := parts + [Reasoning(Minted('r', |parts|), delta)];
      }
    }

    method PutImage(id: string, path: string)
      modifies `parts
      ensures parts == WithImage(old(parts), id, path)
    {
      var at := Find(id, false);
      if at.Some? {
        parts := parts[at.value := Image(id, path)];
      } else {
        parts := parts + [Image(id, path)];
      }
    }

    method PutTool(id: string, call: Call)
      modifies `parts
      ensures parts == WithTool(old(parts), id, call)
    {
      var at := Find(id, true);
      if at.Some? {
        parts := parts[at.value := parts[at.value].(call := call)];
      } else {
        parts := parts + [Tool(id, call, false, false, None, None)];
      }
    }

    method PutInput(requestId: string)
      modifies `parts
      ensures parts == WithInput(old(parts), requestId)
    {
      var at := Find("in-" + requestId, false);
      if at == None {
        parts := parts + [Input("in-" + requestId, requestId, false)];
      }
    }

    method Find(id: string, toolsOnly: bool) returns (at: Option<nat>)
      ensures at == First(parts, id, toolsOnly)
    {
      for i := 0 to |parts|
        invariant forall j :: 0 <= j < i ==> !Hits(parts[j], id, toolsOnly)
      {
        if Hits(parts[i], id, toolsOnly) {
          return Some(i);
        }
      }
      return None;
    }

    method Visit(c: Change)
      modifies `parts
      ensures parts == Each(old(parts), c)
    {
      for i := 0 to |parts|
        invariant |parts| == |old(parts)|
        invariant forall j :: 0 <= j < |parts| ==> parts[j] == if j < i then Changed(c, old(parts)[j]) else old(parts)[j]
      {
        parts := parts[i := Changed(c, parts[i])];
      }
    }
  }

  // ── splitting ─────────────────────────────────────────────────────────────

  /** The size the split counts; `weigh` sizes the kinds that are serialized. */
  function ByteLen(p: Part, weigh: Part -> nat): nat {
    if p.Text? || p.Reasoning? then |p.text| else weigh(p)
  }

  function Weight(chunk: seq<Part>, weigh: Part -> nat): nat
    decreases |chunk|
  {
    if chunk == [] then 0 else Weight(chunk[..|chunk| - 1], weigh) + ByteLen(chunk[|chunk| - 1], weigh)
  }

  /** `join_continuations`: entries' parts, end to end. */
  function Flatten(chunks: seq<seq<Part>>): seq<Part>
    decreases |chunks|
  {
    if chunks == [] then [] else Flatten(chunks[..|chunks| - 1]) + chunks[|chunks| - 1]
  }

  function PieceId(id: string, piece: nat): string {
    if piece == 0 then id else id + "~" + Pad(piece, 1)
  }

  /** These parts are the pieces of one body, cut at character boundaries, in order, none above
  the cap and none but the last shorter than a character needs. */
  ghost predicate PiecesOf(pieces: seq<Part>, p: Part)
    requires p.Text? || p.Reasoning?
  {
    && Bodies(pieces) == p.text
    && forall i {:trigger pieces[i]} :: 0 <= i < |pieces| ==>
         && (if p.Text? then pieces[i].Text? else pieces[i].Reasoning?)
         && pieces[i].id == (if i == 0 then p.id else p.id + "~" + Pad(i, 1))
         && Utf8(pieces[i].text) && 1 <= |pieces[i].text| <= MSG_INLINE_MAX
         && (i < |pieces| - 1 ==> |pieces[i].text| > MSG_INLINE_MAX - 4)
  }

  function Bodies(pieces: seq<Part>): Bytes
    decreases |pieces|
  {
    if pieces == [] then []
    else Bodies(pieces[..|pieces| - 1]) + (var p := pieces[|pieces| - 1]; if p.Text? || p.Reasoning? then p.text else [])
  }

  /** Only a body can be cut, so any other kind has to fit whole. */
  predicate Light(p: Part, weigh: Part -> nat) {
    p.Text? || p.Reasoning? || weigh(p) <= MSG_INLINE_MAX
  }

  predicate Oversized(p: Part) {
    (p.Text? || p.Reasoning?) && |p.text| > MSG_INLINE_MAX
  }

  /** The parts, each oversized body replaced by its pieces. */
  ghost predicate SplitOf(flat: seq<Part>, parts: seq<Part>)
    decreases |parts|
  {
    if parts == [] then flat == []
    else
      var front, last := parts[..|parts| - 1], parts[|parts| - 1];
      if Oversized(last) then exists n: nat :: n <= |flat| && SplitOf(flat[..n], front) && PiecesOf(flat[n..], last)
      else flat != [] && flat[|flat| - 1] == last && SplitOf(flat[..|flat| - 1], front)
  }

  /** No entry is empty but for what weighs nothing, and none could have taken the part the next one
  starts with. */
  ghost predicate Packed(chunks: seq<seq<Part>>, weigh: Part -> nat) {
    forall i :: 0 < i < |chunks| ==> Tight(chunks[i - 1], chunks[i], weigh)
  }

  ghost predicate Tight(entry: seq<Part>, next: seq<Part>, weigh: Part -> nat) {
    next != [] && Weight(entry, weigh) > 0 && Weight(entry, weigh) + ByteLen(next[0], weigh) > MSG_INLINE_MAX
  }

  ghost predicate Fits(chunks: seq<seq<Part>>, weigh: Part -> nat) {
    forall i {:trigger chunks[i]} :: 0 <= i < |chunks| ==> Weight(chunks[i], weigh) <= MSG_INLINE_MAX
  }

  /** The closure that starts a new entry when a part does not fit. */
  method PushSplit(chunks: seq<seq<Part>>, current: nat, part: Part, weigh: Part -> nat) returns (out: seq<seq<Part>>, total: nat)
    requires chunks != [] && current == Weight(chunks[|chunks| - 1], weigh)
    ensures out != [] && total == Weight(out[|out| - 1], weigh)
    ensures Flatten(out) == Flatten(chunks) + [part]
    ensures Fits(chunks, weigh) && ByteLen(part, weigh) <= MSG_INLINE_MAX ==> Fits(out, weigh)
    ensures Packed(chunks, weigh) ==> Packed(out, weigh)
    ensures current == 0 || current + ByteLen(part, weigh) <= MSG_INLINE_MAX ==> out == chunks[|chunks| - 1 := chunks[|chunks| - 1] + [part]]
  {
    PushPacked(chunks, part, weigh);
    hide Flatten, Weight, Fits, Packed;
    var len := ByteLen(part, weigh);
    out, total := chunks, current;
    if total > 0 && total + len > MSG_INLINE_MAX {
      NewChunk(out, weigh);
      out, total := out + [[]], 0;
    }
    GrowChunk(out, part, weigh);
    out := out[|out| - 1 := out[|out| - 1] + [part]];
    total := total + len;
  }

  lemma {:induction false} PushPacked(chunks: seq<seq<Part>>, part: Part, weigh: Part -> nat)
    requires chunks != []
    ensures var last := chunks[|chunks| - 1];
      && (Packed(chunks, weigh) ==> Packed(chunks[|chunks| - 1 := last + [part]], weigh))
      && (chunks + [[]])[|chunks| := [] + [part]] == chunks + [[part]]
      && (Packed(chunks, weigh) && Weight(last, weigh) > 0 && Weight(last, weigh) + ByteLen(part, weigh) > MSG_INLINE_MAX ==>
           Packed(chunks + [[part]], weigh))
  {
    hide Weight, ByteLen, Packed;
    var last := chunks[|chunks| - 1];
    assert [] + [part] == [part] && (chunks + [[]])[|chunks| := [part]] == chunks + [[part]];
    if Packed(chunks, weigh) {
      GrownPacked(chunks, part, weigh);
      if Weight(last, weigh) > 0 && Weight(last, weigh) + ByteLen(part, weigh) > MSG_INLINE_MAX {
        NextPacked(chunks, part, weigh);
      }
    }
  }

  lemma {:induction false} GrownPacked(chunks: seq<seq<Part>>, part: Part, weigh: Part -> nat)
    requires chunks != [] && Packed(chunks, weigh)
    ensures Packed(chunks[|chunks| - 1 := chunks[|chunks| - 1] + [part]], weigh)
  {
    hide Weight, ByteLen;
    var grown := chunks[|chunks| - 1 := chunks[|chunks| - 1] + [part]];
    forall i | 0 < i < |grown| ensures Tight(grown[i - 1], grown[i], weigh) {
      assert Tight(chunks[i - 1], chunks[i], weigh) && grown[i][0] == chunks[i][0];
    }
  }

  lemma {:induction false} NextPacked(chunks: seq<seq<Part>>, part: Part, weigh: Part -> nat)
    requires chunks != [] && Packed(chunks, weigh) && Weight(chunks[|chunks| - 1], weigh) > 0
    requires Weight(chunks[|chunks| - 1], weigh) + ByteLen(part, weigh) > MSG_INLINE_MAX
    ensures Packed(chunks + [[part]], weigh)
  {
    hide Weight, ByteLen;
    var more := chunks + [[part]];
    forall i | 0 < i < |more| ensures Tight(more[i - 1], more[i], weigh) {
      if i < |chunks| {
        assert Tight(chunks[i - 1], chunks[i], weigh) && more[i] == chunks[i];
      }
    }
  }

  lemma {:induction false} NewChunk(chunks: seq<seq<Part>>, weigh: Part -> nat)
    ensures Flatten(chunks + [[]]) == Flatten(chunks) && Weight([], weigh) == 0
    ensures Fits(chunks, weigh) ==> Fits(chunks + [[]], weigh)
  {
    var more := chunks + [[]];
    assert more[..|more| - 1] == chunks;
  }

  lemma {:induction false} GrowChunk(chunks: seq<seq<Part>>, part: Part, weigh: Part -> nat)
    requires chunks != []
    ensures var last := chunks[|chunks| - 1];
      var after := chunks[|chunks| - 1 := last + [part]];
      && Flatten(after) == Flatten(chunks) + [part]
      && Weight(last + [part], weigh) == Weight(last, weigh) + ByteLen(part, weigh)
      && (Fits(chunks, weigh) && Weight(last, weigh) + ByteLen(part, weigh) <= MSG_INLINE_MAX ==> Fits(after, weigh))
  {
    var last := chunks[|chunks| - 1];
    var after := chunks[|chunks| - 1 := last + [part]];
    assert (last + [part])[..|last + [part]| - 1] == last;
    assert after[..|after| - 1] == chunks[..|chunks| - 1];
    hide Weight;
    var front := Flatten(chunks[..|chunks| - 1]);
    assert front + (last + [part]) == front + last + [part];
  }

  /** Where the next piece ends: at the cap, or back to the character it would cut. */
  method PieceEnd(text: Bytes, start: nat) returns (end: int)
    requires Utf8(text) && start < |text| && Boundary(text, start)
    ensures start < end <= |text| && end - start <= MSG_INLINE_MAX && Boundary(text, end)
    ensures end == |text| || (end - start > MSG_INLINE_MAX - 4 && forall b :: end < b <= start + MSG_INLINE_MAX ==> !Boundary(text, b))
  {
    end := if start + MSG_INLINE_MAX < |text| then start + MSG_INLINE_MAX else |text|;
    ghost var b := BoundaryNear(text, end);
    ghost var first := end;
    while end < |text| && !Boundary(text, end)
      invariant b <= end <= first && (first < |text| ==> start < b) && start < end
      invariant first == |text| ==> end == first
      invariant forall c :: end < c <= first ==> !Boundary(text, c)
      decreases end
    {
      end := end - 1;
    }
    if end <= start {
      end := |text|;
    }
  }

  lemma {:induction false} SliceUtf8(text: Bytes, start: nat, end: nat)
    requires Utf8(text) && start <= end && Boundary(text, start) && Boundary(text, end)
    ensures Utf8(text[start..end])
  {
    CutUtf8(text, end);
    var front := text[..end];
    assert Boundary(front, start);
    CutUtf8(front, start);
    assert front[start..] == text[start..end];
  }

  ghost predicate PiecesUpTo(pieces: seq<Part>, p: Part, start: nat)
    requires (p.Text? || p.Reasoning?) && start <= |p.text|
  {
    && PiecesOf(pieces, p.(text := p.text[..start]))
    && (start < |p.text| ==> forall i :: 0 <= i < |pieces| ==> |pieces[i].text| > MSG_INLINE_MAX - 4)
  }

  lemma {:induction false} PieceStep(pieces: seq<Part>, p: Part, start: nat, end: nat, sub: Part)
    requires (p.Text? || p.Reasoning?) && Utf8(p.text) && start < end <= |p.text| && PiecesUpTo(pieces, p, start)
    requires end - start <= MSG_INLINE_MAX && Boundary(p.text, start) && Boundary(p.text, end)
    requires end < |p.text| ==> end - start > MSG_INLINE_MAX - 4
    requires sub == p.(id := PieceId(p.id, |pieces|), text := p.text[start..end])
    ensures PiecesUpTo(pieces + [sub], p, end)
  {
    hide Utf8, Bodies, Pad;
    SliceUtf8(p.text, start, end);
    LastBody(pieces, sub);
    Prefix(p.text, start, end);
    var more := pieces + [sub];
    forall i | 0 <= i < |more|
      ensures if p.Text? then more[i].Text? else more[i].Reasoning?
      ensures more[i].id == (if i == 0 then p.id else p.id + "~" + Pad(i, 1))
      ensures Utf8(more[i].text) && 1 <= |more[i].text| <= MSG_INLINE_MAX
      ensures i < |more| - 1 || end < |p.text| ==> |more[i].text| > MSG_INLINE_MAX - 4
    {
      if i < |pieces| {
        assert more[i] == pieces[i];
      }
    }
  }

  lemma {:induction false} Prefix(text: Bytes, start: nat, end: nat)
    requires start <= end <= |text|
    ensures text[..start] + text[start..end] == text[..end]
  {
  }

  lemma {:induction false} LastBody(pieces: seq<Part>, sub: Part)
    requires sub.Text? || sub.Reasoning?
    ensures Bodies(pieces + [sub]) == Bodies(pieces) + sub.text
  {
    assert (pieces + [sub])[..|pieces|] == pieces;
  }

  /** Push an oversized body piece by piece. */
  method PushBody(chunks: seq<seq<Part>>, current: nat, part: Part, weigh: Part -> nat)
    returns (out: seq<seq<Part>>, total: nat, ghost pieces: seq<Part>)
    requires chunks != [] && current == Weight(chunks[|chunks| - 1], weigh)
    requires (part.Text? || part.Reasoning?) && Utf8(part.text)
    ensures out != [] && total == Weight(out[|out| - 1], weigh)
    ensures Flatten(out) == Flatten(chunks) + pieces && PiecesOf(pieces, part)
    ensures Fits(chunks, weigh) ==> Fits(out, weigh)
    ensures Packed(chunks, weigh) ==> Packed(out, weigh)
  {
    hide PiecesOf, Fits, Weight, Utf8, Flatten, Packed;
    out, total, pieces := chunks, current, [];
    var text := part.text;
    var start, piece := 0, 0;
    NoPieces(part);
    assert Flatten(chunks) + [] == Flatten(chunks);
    while start < |text|
      invariant start <= |text| && Boundary(text, start) && piece == |pieces|
      invariant out != [] && total == Weight(out[|out| - 1], weigh)
      invariant Flatten(out) == Flatten(chunks) + pieces && PiecesUpTo(pieces, part, start)
      invariant Fits(chunks, weigh) ==> Fits(out, weigh)
      invariant Packed(chunks, weigh) ==> Packed(out, weigh)
    {
      var end := PieceEnd(text, start);
      var sub := part.(id := PieceId(part.id, piece), text := text[start..end]);
      PieceStep(pieces, part, start, end, sub);
      out, total := PushSplit(out, total, sub, weigh);
      assert Flatten(chunks) + pieces + [sub] == Flatten(chunks) + (pieces + [sub]);
      pieces := pieces + [sub];
      start, piece := end, piece + 1;
    }
    assert text[..|text|] == text && part.(text := text) == part;
  }

  lemma {:induction false} NoPieces(p: Part)
    requires p.Text? || p.Reasoning?
    ensures PiecesUpTo([], p, 0)
  {
    assert p.text[..0] == [];
  }

  /** Split a message. Part order and every body survive; a body is cut only where it is over the
  cap, between characters; every entry keeps within the cap if each part that is not text does. */
  method SplitParts(parts: seq<Part>, weigh: Part -> nat) returns (chunks: seq<seq<Part>>)
    requires forall i :: 0 <= i < |parts| && (parts[i].Text? || parts[i].Reasoning?) ==> Utf8(parts[i].text)
    ensures chunks != [] && SplitOf(Flatten(chunks), parts)
    ensures (forall i :: 0 <= i < |parts| ==> Light(parts[i], weigh)) ==> Fits(chunks, weigh)
    ensures Packed(chunks, weigh) && (Weight(parts, weigh) <= MSG_INLINE_MAX ==> chunks == [parts])
    ensures (forall i :: 0 <= i < |parts| ==> Light(parts[i], weigh)) ==>
      forall i :: 0 <= i < |chunks| ==> |Texts(chunks[i])| + |Reasonings(chunks[i])| <= MSG_INLINE_MAX
    ensures (forall i :: 0 <= i < |parts| ==> parts[i].Text? || parts[i].Reasoning?) && |Texts(parts)| + |Reasonings(parts)| <= MSG_INLINE_MAX ==>
      chunks == [parts]
  {
    hide Utf8, Flatten, Weight, Fits, SplitOf, PiecesOf, Packed, Texts, Reasonings;
    chunks := [[]];
    var current := 0;
    EmptyChunk(weigh);
    assert parts[..0] == [];
    for i := 0 to |parts|
      invariant chunks != [] && current == Weight(chunks[|chunks| - 1], weigh)
      invariant SplitOf(Flatten(chunks), parts[..i])
      invariant (forall j :: 0 <= j < i ==> Light(parts[j], weigh)) ==> Fits(chunks, weigh)
      invariant Packed(chunks, weigh) && (Weight(parts[..i], weigh) <= MSG_INLINE_MAX ==> chunks == [parts[..i]])
    {
      WeightLast(parts[..i], parts[i], weigh);
      ghost var flat := Flatten(chunks);
      assert parts[..i + 1] == parts[..i] + [parts[i]];
      if Oversized(parts[i]) {
        ghost var pieces;
        chunks, current, pieces := PushBody(chunks, current, parts[i], weigh);
        SplitMore(flat, parts[..i], parts[i], pieces);
      } else {
        chunks, current := PushSplit(chunks, current, parts[i], weigh);
        SplitMore(flat, parts[..i], parts[i], [parts[i]]);
      }
    }
    assert parts[..|parts|] == parts;
    WeightOfBodies(parts, weigh);
    FitBodies(chunks, weigh);
  }

  lemma {:induction false} EmptyChunk(weigh: Part -> nat)
    ensures Flatten([[]]) == [] && Weight([], weigh) == 0 && Fits([[]], weigh) && Packed([[]], weigh) && SplitOf([], [])
  {
    var chunks: seq<seq<Part>> := [[]];
    assert chunks[..0] == [] && Flatten([]) == [];
  }

  lemma {:induction false} WeightLast(chunk: seq<Part>, part: Part, weigh: Part -> nat)
    ensures Weight(chunk + [part], weigh) == Weight(chunk, weigh) + ByteLen(part, weigh)
  {
    assert (chunk + [part])[..|chunk|] == chunk;
  }

  /** An entry weighs at least its text and its reasoning, and no more if it has nothing else. */
  lemma {:induction false} WeightOfBodies(chunk: seq<Part>, weigh: Part -> nat)
    ensures |Texts(chunk)| + |Reasonings(chunk)| <= Weight(chunk, weigh)
    ensures (forall i :: 0 <= i < |chunk| ==> chunk[i].Text? || chunk[i].Reasoning?) ==>
      Weight(chunk, weigh) == |Texts(chunk)| + |Reasonings(chunk)|
    decreases |chunk|
  {
    if chunk != [] {
      WeightOfBodies(chunk[..|chunk| - 1], weigh);
    }
  }

  lemma {:induction false} FitBodies(chunks: seq<seq<Part>>, weigh: Part -> nat)
    ensures Fits(chunks, weigh) ==> forall i :: 0 <= i < |chunks| ==> |Texts(chunks[i])| + |Reasonings(chunks[i])| <= MSG_INLINE_MAX
  {
    forall i | 0 <= i < |chunks| ensures |Texts(chunks[i])| + |Reasonings(chunks[i])| <= Weight(chunks[i], weigh) {
      WeightOfBodies(chunks[i], weigh);
    }
  }

  lemma {:induction false} SplitMore(flat: seq<Part>, parts: seq<Part>, last: Part, pieces: seq<Part>)
    requires SplitOf(flat, parts)
    requires if Oversized(last) then PiecesOf(pieces, last) else pieces == [last]
    ensures SplitOf(flat + pieces, parts + [last])
  {
    var all, more := flat + pieces, parts + [last];
    assert more[..|more| - 1] == parts;
    if Oversized(last) {
      assert all[..|flat|] == flat && all[|flat|..] == pieces;
    } else {
      assert all[..|all| - 1] == flat;
    }
  }

  // ── joining back ──────────────────────────────────────────────────────────

  lemma {:induction false} TextsConcat(x: seq<Part>, y: seq<Part>)
    ensures Texts(x + y) == Texts(x) + Texts(y) && Reasonings(x + y) == Reasonings(x) + Reasonings(y)
    decreases |y|
  {
    if y == [] {
      assert x + y == x;
    } else {
      var front, last := y[..|y| - 1], y[|y| - 1];
      assert x + y == x + front + [last] && y == front + [last];
      TextsLast(x + front, last);
      TextsLast(front, last);
      TextsConcat(x, front);
      hide Texts, Reasonings;
      Assoc(Texts(x), Texts(front), Own(last, true));
      Assoc(Reasonings(x), Reasonings(front), Own(last, false));
    }
  }

  /** What a part adds to the text, or to the reasoning. */
  function Own(p: Part, text: bool): Bytes {
    if (if text then p.Text? else p.Reasoning?) then p.text else []
  }

  lemma {:induction false} TextsLast(parts: seq<Part>, last: Part)
    ensures Texts(parts + [last]) == Texts(parts) + Own(last, true)
    ensures Reasonings(parts + [last]) == Reasonings(parts) + Own(last, false)
  {
    assert (parts + [last])[..|parts|] == parts;
  }

  lemma {:induction false} PiecesRead(pieces: seq<Part>, text: bool)
    requires forall i :: 0 <= i < |pieces| ==> if text then pieces[i].Text? else pieces[i].Reasoning?
    ensures Texts(pieces) == (if text then Bodies(pieces) else [])
    ensures Reasonings(pieces) == (if text then [] else Bodies(pieces))
    decreases |pieces|
  {
    if pieces != [] {
      PiecesRead(pieces[..|pieces| - 1], text);
    }
  }

  /** The pieces of a body read as the body does. */
  lemma {:induction false} PiecesReadAs(pieces: seq<Part>, p: Part)
    requires Oversized(p) && PiecesOf(pieces, p)
    ensures Texts(pieces) == Own(p, true) && Reasonings(pieces) == Own(p, false)
  {
    hide Texts, Reasonings, Bodies, Utf8, PieceId;
    PiecesRead(pieces, p.Text?);
  }

  /** Joined continuations read exactly as the unsplit message. */
  lemma {:induction false} JoinReadsBack(flat: seq<Part>, parts: seq<Part>)
    requires SplitOf(flat, parts)
    ensures Texts(flat) == Texts(parts) && Reasonings(flat) == Reasonings(parts)
    decreases |parts|
  {
    hide Texts, Reasonings, PiecesOf, Own;
    if parts == [] {
    } else {
      var front, last := parts[..|parts| - 1], parts[|parts| - 1];
      assert parts == front + [last];
      TextsLast(front, last);
      if Oversized(last) {
        var n: nat :| n <= |flat| && SplitOf(flat[..n], front) && PiecesOf(flat[n..], last);
        JoinReadsBack(flat[..n], front);
        assert flat == flat[..n] + flat[n..];
        TextsConcat(flat[..n], flat[n..]);
        PiecesReadAs(flat[n..], last);
      } else {
        var rest := flat[..|flat| - 1];
        JoinReadsBack(rest, front);
        assert flat == rest + [last];
        TextsLast(rest, last);
      }
    }
  }
}
