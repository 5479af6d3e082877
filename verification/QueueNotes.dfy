/** Rewriting the unsent queue keeps the push notifications the room derives from it
(crates/doc/src/registry.rs:829-952 against edge/src/registry-room.ts:452-519). */
module QueueNotes {
  import opened Wrappers
  import opened Hlc
  import opened RegistryCore
  import opened OpRewriting
  import opened MergeLaws
  import opened Queue
  import opened PushNotify

  /** The two rows a session notification depends on. */
  datatype View = View(session: Option<Row>, chat: Option<Row>)

  function ViewAfter(v: View, q: Batches, id: string): View {
    View(Fold(v.session, q, Key(SESSIONS, id)), Fold(v.chat, q, Key(CHATS, id)))
  }

  /** Whether some op of the batch changed the row. */
  predicate Touches(row: Option<Row>, ops: seq<Op>, key: Key)
    decreases |ops|
  {
    ops != [] &&
    if ops[0].key == key
    then ApplyOp(row, ops[0]).changed || Touches(ApplyOp(row, ops[0]).row, ops[1..], key)
    else Touches(row, ops[1..], key)
  }

  /** The notification, if any, a batch raises for chat `id`: from the session row it found and the
  one it left, titled from the chat row it left. */
  function BatchNote(v: View, ops: seq<Op>, id: string, now: real): seq<Note> {
    var after := FoldOps(v.session, ops, Key(SESSIONS, id));
    if !Touches(v.session, ops, Key(SESSIONS, id)) || after == None then []
    else
      var category := NotificationFor(v.session, after.value, now);
      var title := ChatForNotification(FoldOps(v.chat, ops, Key(CHATS, id)));
      if category.Some? && title.Some? then [Note(category.value, title.value)] else []
  }

  /** The notifications for chat `id` while the room applies the batches in order. */
  function Notes(v: View, q: Batches, id: string, now: real): seq<Note>
    decreases |q|
  {
    if q == [] then []
    else BatchNote(v, q[0], id, now) + Notes(ViewAfter(v, [q[0]], id), q[1..], id, now)
  }

  // ── the session writers' discipline ───────────────────────────────────────

  predicate FullSession(op: Op) {
    op.op == Upsert && SingleClock(op)
    && "status" in Writes(op) && "lastCompletedTurn" in Writes(op) && "updatedAt" in Writes(op)
  }

  predicate Beats(row: Option<Row>, hlc: Clock) {
    row.Some? ==> DeleteBeats(row.value, hlc)
  }

  /** Each session op is newer than the whole row it meets, and is a delete or a full upsert
  whose `updatedAt` does not go back. */
  predicate SteadyOps(row: Option<Row>, ops: seq<Op>, key: Key)
    decreases |ops|
  {
    ops == [] ||
    if ops[0].key != key then SteadyOps(row, ops[1..], key)
    else SteadyAt(row, ops[0]) && SteadyOps(ApplyOp(row, ops[0]).row, ops[1..], key)
  }

  predicate SteadyAt(row: Option<Row>, op: Op) {
    && Beats(row, op.hlc)
    && (op.op == Delete || (
         && FullSession(op)
         && (row.Some? && !row.value.deleted ==> UpdatedAt(row.value.fields) <= UpdatedAt(Writes(op)))))
  }

  predicate Steady(row: Option<Row>, q: Batches, key: Key)
    decreases |q|
  {
    q == [] || (SteadyOps(row, q[0], key) && Steady(FoldOps(row, q[0], key), q[1..], key))
  }

  // ── concatenation ─────────────────────────────────────────────────────────

  lemma {:induction false} NotesConcat(v: View, x: Batches, y: Batches, id: string, now: real)
    ensures Notes(v, x + y, id, now) == Notes(v, x, id, now) + Notes(ViewAfter(v, x, id), y, id, now)
    decreases |x|
  {
    if x == [] {
      assert x + y == y;
    } else {
      assert (x + y)[1..] == x[1..] + y && (x + y)[0] == x[0];
      NotesConcat(ViewAfter(v, [x[0]], id), x[1..], y, id, now);
      ViewConcat(v, [x[0]], x[1..], id);
      assert [x[0]] + x[1..] == x;
    }
  }

  lemma {:induction false} ViewConcat(v: View, x: Batches, y: Batches, id: string)
    ensures ViewAfter(v, x + y, id) == ViewAfter(ViewAfter(v, x, id), y, id)
  {
    FoldConcat(v.session, x, y, Key(SESSIONS, id));
    FoldConcat(v.chat, x, y, Key(CHATS, id));
  }

  lemma {:induction false} SteadyConcat(row: Option<Row>, x: Batches, y: Batches, key: Key)
    ensures Steady(row, x + y, key) <==> Steady(row, x, key) && Steady(Fold(row, x, key), y, key)
    decreases |x|
  {
    if x == [] {
      assert x + y == y;
    } else {
      assert (x + y)[1..] == x[1..] + y && (x + y)[0] == x[0];
      SteadyConcat(FoldOps(row, x[0], key), x[1..], y, key);
    }
  }

  lemma {:induction false} NotesOne(v: View, x: seq<Op>, id: string, now: real)
    ensures Notes(v, [x], id, now) == BatchNote(v, x, id, now)
    ensures ViewAfter(v, [x], id) ==
      View(FoldOps(v.session, x, Key(SESSIONS, id)), FoldOps(v.chat, x, Key(CHATS, id)))
  {
    FoldOne(v.session, x, Key(SESSIONS, id));
    FoldOne(v.chat, x, Key(CHATS, id));
    assert [x][1..] == [];
  }

  lemma {:induction false} SteadyOne(row: Option<Row>, x: seq<Op>, key: Key)
    ensures Steady(row, [x], key) <==> SteadyOps(row, x, key)
  {
    assert [x][1..] == [];
  }

  /** The notes of a queue cut around two of its batches. */
  lemma {:induction false} NotesCut(v: View, pre: Batches, x: seq<Op>, mid: Batches, y: seq<Op>, post: Batches, id: string, now: real)
    ensures var v0 := ViewAfter(v, pre, id);
      var v1 := ViewAfter(v0, [x], id);
      var v2 := ViewAfter(v1, mid, id);
      Notes(v, pre + [x] + mid + [y] + post, id, now) ==
        Notes(v, pre, id, now) + BatchNote(v0, x, id, now) + Notes(v1, mid, id, now) + BatchNote(v2, y, id, now)
        + Notes(ViewAfter(v2, [y], id), post, id, now)
  {
    NotesConcat(v, pre + [x] + mid + [y], post, id, now);
    NotesConcat(v, pre + [x] + mid, [y], id, now);
    NotesConcat(v, pre + [x], mid, id, now);
    NotesConcat(v, pre, [x], id, now);
    ViewConcat(v, pre + [x] + mid, [y], id);
    ViewConcat(v, pre + [x], mid, id);
    ViewConcat(v, pre, [x], id);
    NotesOne(ViewAfter(v, pre, id), x, id, now);
    NotesOne(ViewAfter(ViewAfter(ViewAfter(v, pre, id), [x], id), mid, id), y, id, now);
  }

  lemma {:induction false} SteadyCut(row: Option<Row>, pre: Batches, x: seq<Op>, mid: Batches, y: seq<Op>, post: Batches, key: Key)
    ensures var r0 := Fold(row, pre, key);
      var r1 := FoldOps(r0, x, key);
      var r2 := Fold(r1, mid, key);
      Steady(row, pre + [x] + mid + [y] + post, key) <==>
        Steady(row, pre, key) && SteadyOps(r0, x, key) && Steady(r1, mid, key) && SteadyOps(r2, y, key)
        && Steady(FoldOps(r2, y, key), post, key)
  {
    SteadyConcat(row, pre + [x] + mid + [y], post, key);
    SteadyConcat(row, pre + [x] + mid, [y], key);
    SteadyConcat(row, pre + [x], mid, key);
    SteadyConcat(row, pre, [x], key);
    FoldConcat(row, pre + [x] + mid, [y], key);
    FoldConcat(row, pre + [x], mid, key);
    FoldConcat(row, pre, [x], key);
    FoldOne(Fold(row, pre, key), x, key);
    FoldOne(Fold(FoldOps(Fold(row, pre, key), x, key), mid, key), y, key);
    SteadyOne(Fold(row, pre, key), x, key);
    SteadyOne(Fold(FoldOps(Fold(row, pre, key), x, key), mid, key), y, key);
  }

  // ── quiet stretches ───────────────────────────────────────────────────────

  lemma {:induction false} TouchesNothing(row: Option<Row>, ops: seq<Op>, key: Key)
    requires !Mentions(ops, key)
    ensures !Touches(row, ops, key) && SteadyOps(row, ops, key)
    decreases |ops|
  {
    if ops != [] {
      assert ops[0].key != key;
      assert forall i :: 0 <= i < |ops[1..]| ==> ops[1..][i] == ops[i + 1];
      TouchesNothing(row, ops[1..], key);
    }
  }

  /** No op on the session row, no notification for its chat. */
  lemma {:induction false} QuietNotes(v: View, q: Batches, id: string, now: real)
    requires Untouched(q, Key(SESSIONS, id))
    ensures Notes(v, q, id, now) == [] && Steady(v.session, q, Key(SESSIONS, id))
    decreases |q|
  {
    if q != [] {
      TouchesNothing(v.session, q[0], Key(SESSIONS, id));
      FoldOpsUnmentioned(v.session, q[0], Key(SESSIONS, id));
      NotesOne(v, q[0], id, now);
      QuietNotes(ViewAfter(v, [q[0]], id), q[1..], id, now);
    }
  }

  /** Chat rows a notification cannot tell apart. */
  predicate LikeChats(c: Option<Row>, d: Option<Row>) {
    && c.Some? == d.Some?
    && (c.Some? ==> c.value.deleted == d.value.deleted)
    && (c.Some? ==>
         && Lookup(c.value.fields, "title") == Lookup(d.value.fields, "title")
         && Lookup(c.value.fields, "archived") == Lookup(d.value.fields, "archived")
         && Lookup(c.value.fields, "parentChatId") == Lookup(d.value.fields, "parentChatId"))
  }

  lemma {:induction false} LikeChatsLabel(c: Option<Row>, d: Option<Row>)
    requires LikeChats(c, d)
    ensures ChatForNotification(c) == ChatForNotification(d)
  {
  }

  lemma {:induction false} UngatedKeepsLabel(row: Option<Row>, op: Op)
    requires !Gates(op)
    ensures LikeChats(ApplyOp(row, op).row, row)
  {
    if row.Some? && !row.value.deleted {
      WriteFieldsAt(row.value, op);
    }
  }

  lemma {:induction false} UngatedOps(row: Option<Row>, ops: seq<Op>, id: string)
    requires forall o :: 0 <= o < |ops| && ops[o].key == Key(CHATS, id) ==> !Gates(ops[o])
    ensures LikeChats(FoldOps(row, ops, Key(CHATS, id)), row)
    decreases |ops|
  {
    if ops != [] {
      var next := if ops[0].key == Key(CHATS, id) then ApplyOp(row, ops[0]).row else row;
      if ops[0].key == Key(CHATS, id) {
        UngatedKeepsLabel(row, ops[0]);
      }
      UngatedOps(next, ops[1..], id);
    }
  }

  lemma {:induction false} UngatedBatches(row: Option<Row>, q: Batches, id: string)
    requires NoGate(q, id)
    ensures LikeChats(Fold(row, q, Key(CHATS, id)), row)
    decreases |q|
  {
    if q != [] {
      UngatedOps(row, q[0], id);
      assert NoGate(q[1..], id);
      UngatedBatches(FoldOps(row, q[0], Key(CHATS, id)), q[1..], id);
    }
  }

  /** Untouched chat rows that look alike give alike notifications. */
  lemma {:induction false} LikeNotes(v: View, w: View, q: Batches, id: string, now: real)
    requires v.session == w.session && LikeChats(v.chat, w.chat) && Untouched(q, Key(CHATS, id))
    ensures Notes(v, q, id, now) == Notes(w, q, id, now)
    decreases |q|
  {
    if q != [] {
      FoldOpsUnmentioned(v.chat, q[0], Key(CHATS, id));
      FoldOpsUnmentioned(w.chat, q[0], Key(CHATS, id));
      LikeChatsLabel(v.chat, w.chat);
      NotesOne(v, q[0], id, now);
      NotesOne(w, q[0], id, now);
      LikeNotes(ViewAfter(v, [q[0]], id), ViewAfter(w, [q[0]], id), q[1..], id, now);
    }
  }

  // ── sessions under the discipline ─────────────────────────────────────────

  function NonNull(v: Value): Option<Value> {
    if v == Null then None else Some(v)
  }

  predicate ShowsField(row: Row, op: Op, k: string) {
    k in Writes(op) && Lookup(row.fields, k) == NonNull(Writes(op)[k]) && Lookup(row.clocks, k) == Some(op.hlc)
  }

  /** The row is live and its notification fields are the ones `op` wrote. */
  predicate Shows(row: Option<Row>, op: Op) {
    && row.Some? && !row.value.deleted
    && ShowsField(row.value, op, "status")
    && ShowsField(row.value, op, "lastCompletedTurn")
    && ShowsField(row.value, op, "updatedAt")
  }

  lemma {:induction false} FullUpsertShows(row: Option<Row>, op: Op)
    requires FullSession(op) && Beats(row, op.hlc)
    ensures ApplyOp(row, op).changed && Shows(ApplyOp(row, op).row, op)
  {
    var base := WriteBase(row, op.key);
    if row.Some? && !row.value.deleted {
      DeleteBeatsLive(row.value, op.hlc);
    }
    WriteFieldsAt(base, op);
    assert Lands(base, op, "status") && Lands(base, op, "lastCompletedTurn") && Lands(base, op, "updatedAt");
    assert "status" in Winners(base, op);
  }

  lemma {:induction false} LastInShows(row: Option<Row>, ops: seq<Op>, key: Key)
    requires SteadyOps(row, ops, key)
    ensures var last := LastIn(ops, key);
      var after := FoldOps(row, ops, key);
      && (last == None ==> after == row)
      && (last.Some? && last.value.op != Delete ==> FullSession(last.value) && Shows(after, last.value))
    decreases |ops|
  {
    if ops != [] {
      var front, end := ops[..|ops| - 1], ops[|ops| - 1];
      assert ops == front + [end];
      SteadyOpsConcat(row, front, [end], key);
      FoldOpsConcat(row, front, [end], key);
      FoldSingle(FoldOps(row, front, key), end, key);
      assert [end][1..] == [];
      LastInShows(row, front, key);
      if end.key == key && end.op != Delete {
        FullUpsertShows(FoldOps(row, front, key), end);
      }
    }
  }

  lemma {:induction false} SteadyOpsConcat(row: Option<Row>, x: seq<Op>, y: seq<Op>, key: Key)
    ensures SteadyOps(row, x + y, key) <==> SteadyOps(row, x, key) && SteadyOps(FoldOps(row, x, key), y, key)
    decreases |x|
  {
    if x == [] {
      assert x + y == y;
    } else {
      assert (x + y)[1..] == x[1..] + y && (x + y)[0] == x[0];
      SteadyOpsConcat(if x[0].key == key then ApplyOp(row, x[0]).row else row, x[1..], y, key);
    }
  }

  lemma {:induction false} LastOpShows(row: Option<Row>, q: Batches, key: Key)
    requires Steady(row, q, key)
    ensures var last := LastOp(q, key);
      var after := Fold(row, q, key);
      && (last == None ==> after == row)
      && (last.Some? && last.value.op != Delete ==> FullSession(last.value) && Shows(after, last.value))
    decreases |q|
  {
    if q != [] {
      var front, end := q[..|q| - 1], q[|q| - 1];
      assert q == front + [end];
      SteadyConcat(row, front, [end], key);
      SteadyOne(Fold(row, front, key), end, key);
      FoldConcat(row, front, [end], key);
      FoldOne(Fold(row, front, key), end, key);
      LastOpShows(row, front, key);
      LastInShows(Fold(row, front, key), end, key);
    }
  }

  /** A merged session op is just the later op when both are full and single-clock. */
  lemma {:induction false} MergedIsLater(a: Op, b: Op, fits: Op -> bool)
    requires CoalesceOps(a, b, fits).Some? && FullSession(a) && FullSession(b) && a.hlc < b.hlc
    ensures CoalesceOps(a, b, fits).value == b
  {
    var m := CoalesceOps(a, b, fits).value;
    assert Shadows(b, a);
    forall k ensures Lookup(Writes(m), k) == Lookup(Writes(b), k) {
      MergedAt(a, b, Upsert, b.hlc, k);
    }
    assert forall k :: k in Writes(m) <==> k in Writes(b) by {
      forall k ensures k in Writes(m) <==> k in Writes(b) {
        assert Lookup(Writes(m), k) == Lookup(Writes(b), k);
      }
    }
    forall k | k in Writes(m) ensures Writes(m)[k] == Writes(b)[k] {
      assert Lookup(Writes(m), k) == Lookup(Writes(b), k);
    }
    assert Writes(m) == Writes(b);
  }

  /** Between like statuses the only possible notification is "waiting for input", raised when
  the touch crosses from stale to fresh. */
  lemma {:induction false} TouchNote(prev: Row, next: Row, p: Op, n: Op, now: real)
    requires Shows(Some(prev), p) && Shows(Some(next), n) && Signal(p) == Signal(n)
    ensures NotificationFor(Some(prev), next, now) ==
      if StrOf(Lookup(next.fields, "status")) == Some("awaitingInput")
           && Stale(prev.fields, now) && !Stale(next.fields, now)
      then Some(Input) else None
  {
  }

  // ── one rewriting step keeps the notifications ────────────────────────────

  lemma {:induction false} BatchNoteOther(v: View, op: Op, id: string, now: real)
    requires op.key != Key(SESSIONS, id)
    ensures BatchNote(v, [op], id, now) == [] && SteadyOps(v.session, [op], Key(SESSIONS, id))
    ensures FoldOps(v.session, [op], Key(SESSIONS, id)) == v.session
  {
    assert !Mentions([op], Key(SESSIONS, id));
    TouchesNothing(v.session, [op], Key(SESSIONS, id));
    FoldOpsUnmentioned(v.session, [op], Key(SESSIONS, id));
  }

  function Raised(category: Option<Category>, title: Option<string>): seq<Note> {
    if category.Some? && title.Some? then [Note(category.value, title.value)] else []
  }

  /** Of two notes in a row one is none and the other what going there directly raises. */
  lemma {:induction false} RaisedOnce(first: Option<Category>, second: Option<Category>, direct: Option<Category>, title: Option<string>)
    requires (first == None && second == direct) || (second == None && first == direct)
    ensures Raised(first, title) + [] + Raised(second, title) == [] + Raised(direct, title)
  {
  }

  lemma {:induction false} BatchNoteSession(v: View, op: Op, id: string, now: real)
    requires op.key == Key(SESSIONS, id) && FullSession(op) && Beats(v.session, op.hlc)
    ensures var after := ApplyOp(v.session, op).row;
      && Shows(after, op) && ViewAfter(v, [[op]], id) == View(after, v.chat)
      && BatchNote(v, [op], id, now) == Raised(NotificationFor(v.session, after.value, now), ChatForNotification(v.chat))
  {
    FullUpsertShows(v.session, op);
    FoldSingle(v.session, op, Key(SESSIONS, id));
    FoldSingle(v.chat, op, Key(CHATS, id));
    NotesOne(v, [op], id, now);
    assert [op][1..] == [];
  }

  lemma {:induction false} EmptyBatch(v: View, id: string, now: real)
    ensures BatchNote(v, [], id, now) == [] && ViewAfter(v, [[]], id) == v
    ensures SteadyOps(v.session, [], Key(SESSIONS, id))
  {
    NotesOne(v, [], id, now);
  }

  /** Three session rows in a row with one status: dropping the middle one drops no notification. */
  lemma {:induction false} SkippedTouch(r0: Row, r1: Row, r2: Row, p: Op, a: Op, b: Op, now: real)
    requires Shows(Some(r0), p) && Shows(Some(r1), a) && Shows(Some(r2), b)
    requires Signal(p) == Signal(a) == Signal(b)
    requires UpdatedAt(r0.fields) <= UpdatedAt(r1.fields) <= UpdatedAt(r2.fields)
    ensures var direct := NotificationFor(Some(r0), r2, now);
      var first := NotificationFor(Some(r0), r1, now);
      var second := NotificationFor(Some(r1), r2, now);
      (first == None && second == direct) || (second == None && first == direct)
  {
    TouchNote(r0, r1, p, a, now);
    TouchNote(r1, r2, a, b, now);
    TouchNote(r0, r2, p, b, now);
  }

  lemma {:induction false} ShownUpdatedAt(row: Row, op: Op)
    requires Shows(Some(row), op)
    ensures UpdatedAt(row.fields) == UpdatedAt(Writes(op))
  {
  }

  lemma {:induction false} LaterBeats(r0: Option<Row>, r1: Option<Row>, a: Op, b: Op)
    requires Shows(r1, a) && Beats(r0, a.hlc) && Beats(r1, b.hlc)
    ensures a.hlc < b.hlc && Beats(r0, b.hlc)
  {
    DeleteBeatsLive(r1.value, b.hlc);
    assert r1.value.clocks["status"] == a.hlc;
  }

  /** The stretch from `a` to `b`, in the original queue and with the two folded into `m`:
  same notifications, same rows at the end, still under the discipline. */
  predicate SameStretch(v0: View, a: Op, mid: Batches, b: Op, m: Op, id: string, now: real) {
    var v1 := ViewAfter(v0, [[a]], id);
    var v2 := ViewAfter(v1, mid, id);
    var w2 := ViewAfter(v0, mid, id);
    && BatchNote(v0, [a], id, now) + Notes(v1, mid, id, now) + BatchNote(v2, [b], id, now)
         == Notes(v0, mid, id, now) + BatchNote(w2, [m], id, now)
    && ViewAfter(v2, [[b]], id) == ViewAfter(w2, [[m]], id)
    && Steady(v0.session, mid, Key(SESSIONS, id)) && SteadyOps(w2.session, [m], Key(SESSIONS, id))
  }

  predicate SteadyStretch(v0: View, a: Op, mid: Batches, b: Op, id: string) {
    var v1 := ViewAfter(v0, [[a]], id);
    && SteadyOps(v0.session, [a], Key(SESSIONS, id)) && Steady(v1.session, mid, Key(SESSIONS, id))
    && SteadyOps(ViewAfter(v1, mid, id).session, [b], Key(SESSIONS, id))
  }

  /** Between the two session ops nothing notifies, and the session row stays. */
  lemma {:induction false} QuietBetween(v: View, mid: Batches, id: string, now: real)
    requires Untouched(mid, Key(SESSIONS, id)) && NoGate(mid, id)
    ensures ViewAfter(v, mid, id).session == v.session && Notes(v, mid, id, now) == [] && Steady(v.session, mid, Key(SESSIONS, id))
    ensures ChatForNotification(ViewAfter(v, mid, id).chat) == ChatForNotification(v.chat)
  {
    FoldUntouched(v.session, mid, Key(SESSIONS, id));
    QuietNotes(v, mid, id, now);
    UngatedBatches(v.chat, mid, id);
    LikeChatsLabel(ViewAfter(v, mid, id).chat, v.chat);
  }

  /** The session row as written, touched by `a`, then by `b`, and by `b` alone. */
  lemma {:induction false} SessionRows(r0: Option<Row>, p: Op, a: Op, b: Op, fits: Op -> bool, now: real)
    requires a.key == b.key && CoalesceOps(a, b, fits).Some? && Signal(p) == Signal(a) == Signal(b) && Shows(r0, p)
    requires SteadyAt(r0, a) && FullSession(a) && SteadyAt(ApplyOp(r0, a).row, b) && FullSession(b)
    ensures var r1, r2 := ApplyOp(r0, a).row, ApplyOp(r0, b).row;
      && CoalesceOps(a, b, fits).value == b && ApplyOp(r1, b).row == r2 && SteadyAt(r0, b)
      && Shows(r1, a) && Shows(r2, b)
      && var direct, first, second := NotificationFor(r0, r2.value, now), NotificationFor(r0, r1.value, now), NotificationFor(r1, r2.value, now);
         (first == None && second == direct) || (second == None && first == direct)
  {
    hide ApplyOp, NotificationFor, CoalesceOps;
    var r1, r2 := ApplyOp(r0, a).row, ApplyOp(r0, b).row;
    FullUpsertShows(r0, a);
    LaterBeats(r0, r1, a, b);
    FullUpsertShows(r0, b);
    MergedIsLater(a, b, fits);
    CoalesceExact(r0, a, b, fits);
    ShownUpdatedAt(r0.value, p);
    ShownUpdatedAt(r1.value, a);
    ShownUpdatedAt(r2.value, b);
    SkippedTouch(r0.value, r1.value, r2.value, p, a, b, now);
  }

  lemma {:induction false} SessionStretch(v0: View, p: Op, a: Op, mid: Batches, b: Op, fits: Op -> bool, id: string, now: real)
    requires a.key == Key(SESSIONS, id) && CoalesceOps(a, b, fits).Some? && Untouched(mid, a.key)
    requires Shows(v0.session, p) && Signal(p) == Signal(a) == Signal(b) && NoGate(mid, id)
    requires SteadyStretch(v0, a, mid, b, id)
    ensures SameStretch(v0, a, mid, b, CoalesceOps(a, b, fits).value, id, now)
  {
    assert [a][1..] == [] && [b][1..] == [];
    assert a.key == b.key && a.op != Delete && b.op != Delete;
    hide ApplyOp, NotificationFor, ChatForNotification, CoalesceOps, Signal, Raised, BatchNote, Notes;
    assert SteadyAt(v0.session, a);
    BatchNoteSession(v0, a, id, now);
    var v1 := ViewAfter(v0, [[a]], id);
    QuietBetween(v1, mid, id, now);
    QuietBetween(v0, mid, id, now);
    var v2, w2 := ViewAfter(v1, mid, id), ViewAfter(v0, mid, id);
    assert v2 == View(v1.session, w2.chat) && w2.session == v0.session;
    assert SteadyAt(v1.session, b);
    hide ViewAfter, Steady, Shows;
    SessionRows(v0.session, p, a, b, fits, now);
    BatchNoteSession(v2, b, id, now);
    BatchNoteSession(w2, b, id, now);
    var r1, r2 := ApplyOp(v0.session, a).row.value, ApplyOp(v0.session, b).row.value;
    RaisedOnce(
      NotificationFor(v0.session, r1, now), NotificationFor(v1.session, r2, now), NotificationFor(v0.session, r2, now),
      ChatForNotification(v0.chat));
  }

  lemma {:induction false} OtherStretch(v0: View, a: Op, mid: Batches, b: Op, fits: Op -> bool, id: string, now: real)
    requires a.key != Key(SESSIONS, id) && CoalesceOps(a, b, fits).Some? && Untouched(mid, a.key)
    requires a.key == Key(CHATS, id) && Gates(a) ==> Untouched(mid, Key(SESSIONS, id))
    requires SteadyStretch(v0, a, mid, b, id)
    ensures SameStretch(v0, a, mid, b, CoalesceOps(a, b, fits).value, id, now)
  {
    var chat := Key(CHATS, id);
    var m := CoalesceOps(a, b, fits).value;
    var v1 := ViewAfter(v0, [[a]], id);
    NotesOne(v0, [a], id, now);
    BatchNoteOther(v0, a, id, now);
    var v2, w2 := ViewAfter(v1, mid, id), ViewAfter(v0, mid, id);
    NotesOne(v2, [b], id, now);
    NotesOne(w2, [m], id, now);
    BatchNoteOther(v2, b, id, now);
    BatchNoteOther(w2, m, id, now);
    FoldSingle(v0.chat, a, chat);
    FoldSingle(v2.chat, b, chat);
    FoldSingle(w2.chat, m, chat);
    if a.key == chat {
      FoldUntouched(v1.chat, mid, chat);
      FoldUntouched(v0.chat, mid, chat);
      CoalesceExact(v0.chat, a, b, fits);
      if Gates(a) {
        QuietNotes(v1, mid, id, now);
        QuietNotes(v0, mid, id, now);
      } else {
        UngatedKeepsLabel(v0.chat, a);
        LikeNotes(v1, v0, mid, id, now);
      }
    }
  }

  /** Splicing an equivalent stretch into the queue changes no notification. */
  lemma {:induction false} SpliceNotes(v: View, pre: Batches, a: Op, mid: Batches, b: Op, m: Op, post: Batches, id: string, now: real)
    requires SameStretch(ViewAfter(v, pre, id), a, mid, b, m, id, now)
    ensures Notes(v, pre + [[]] + mid + [[m]] + post, id, now) == Notes(v, pre + [[a]] + mid + [[b]] + post, id, now)
  {
    var v0 := ViewAfter(v, pre, id);
    var v1 := ViewAfter(v0, [[a]], id);
    var v2, w2 := ViewAfter(v1, mid, id), ViewAfter(v0, mid, id);
    EmptyBatch(v0, id, now);
    NotesCut(v, pre, [a], mid, [b], post, id, now);
    NotesCut(v, pre, [], mid, [m], post, id, now);
    Respliced(Notes(v, pre, id, now),
      BatchNote(v0, [a], id, now), Notes(v1, mid, id, now), BatchNote(v2, [b], id, now),
      Notes(v0, mid, id, now), BatchNote(w2, [m], id, now),
      Notes(ViewAfter(v2, [[b]], id), post, id, now));
  }

  lemma {:induction false} Respliced<T>(front: seq<T>, x: seq<T>, n: seq<T>, y: seq<T>, n': seq<T>, z: seq<T>, back: seq<T>)
    requires x + n + y == n' + z
    ensures front + x + n + y + back == front + [] + n' + z + back
  {
    assert front + x + n + y == front + (x + n + y);
    assert front + [] + n' + z == front + (n' + z);
  }

  lemma {:induction false} SpliceSteady(v: View, pre: Batches, a: Op, mid: Batches, b: Op, m: Op, post: Batches, id: string, now: real)
    requires Steady(v.session, pre + [[a]] + mid + [[b]] + post, Key(SESSIONS, id))
    ensures Steady(v.session, pre, Key(SESSIONS, id)) && SteadyStretch(ViewAfter(v, pre, id), a, mid, b, id)
    ensures SameStretch(ViewAfter(v, pre, id), a, mid, b, m, id, now) ==>
      Steady(v.session, pre + [[]] + mid + [[m]] + post, Key(SESSIONS, id))
  {
    var key := Key(SESSIONS, id);
    var v0 := ViewAfter(v, pre, id);
    var v1 := ViewAfter(v0, [[a]], id);
    NotesOne(v0, [a], id, now);
    NotesOne(ViewAfter(v1, mid, id), [b], id, now);
    NotesOne(ViewAfter(v0, mid, id), [m], id, now);
    EmptyBatch(v0, id, now);
    SteadyCut(v.session, pre, [a], mid, [b], post, key);
    SteadyCut(v.session, pre, [], mid, [m], post, key);
  }

  /** One step keeps the notifications of every chat, and the discipline. */
  lemma {:induction false} StepKeepsNotes(q: Batches, i: nat, j: nat, fits: Op -> bool, v: View, id: string, now: real)
    requires Foldable(q, i, j, fits) && MayMove(q, i, j)
    requires Steady(v.session, q, Key(SESSIONS, id))
    ensures Steady(v.session, Folded(q, i, j, fits), Key(SESSIONS, id))
    ensures Notes(v, Folded(q, i, j, fits), id, now) == Notes(v, q, id, now)
  {
    var key := Key(SESSIONS, id);
    var pre, a, b, mid, post := q[..i], q[i][0], q[j][0], q[i + 1..j], q[j + 1..];
    var m := CoalesceOps(a, b, fits).value;
    assert q == pre + [[a]] + mid + [[b]] + post && Folded(q, i, j, fits) == pre + [[]] + mid + [[m]] + post by {
      Cut(q, i, j, fits);
      assert q[i] == [a] && q[j] == [b];
    }
    var v0 := ViewAfter(v, pre, id);
    SpliceSteady(v, pre, a, mid, b, m, post, id, now);
    if a.key == key {
      LastOpShows(v.session, pre, key);
      SessionStretch(v0, LastOp(pre, key).value, a, mid, b, fits, id, now);
    } else {
      OtherStretch(v0, a, mid, b, fits, id, now);
    }
    SpliceNotes(v, pre, a, mid, b, m, post, id, now);
  }

  lemma {:induction false} AnyStepKeepsNotes(q: Batches, q': Batches, fits: Op -> bool, v: View, id: string, now: real)
    requires Step(q, q', fits) && Steady(v.session, q, Key(SESSIONS, id))
    ensures Steady(v.session, q', Key(SESSIONS, id)) && Notes(v, q', id, now) == Notes(v, q, id, now)
  {
    var i: nat, j: nat :| Foldable(q, i, j, fits) && MayMove(q, i, j) && q' == Folded(q, i, j, fits);
    StepKeepsNotes(q, i, j, fits, v, id, now);
  }

  lemma {:induction false} StepsKeepNotes(trace: seq<Batches>, fits: Op -> bool, v: View, id: string, now: real)
    requires Rewriting(trace, fits) && Steady(v.session, trace[0], Key(SESSIONS, id))
    ensures Steady(v.session, trace[|trace| - 1], Key(SESSIONS, id))
    ensures Notes(v, trace[|trace| - 1], id, now) == Notes(v, trace[0], id, now)
    decreases |trace|
  {
    if |trace| > 1 {
      var front := trace[..|trace| - 1];
      StepsKeepNotes(front, fits, v, id, now);
      AnyStepKeepsNotes(front[|front| - 1], trace[|trace| - 1], fits, v, id, now);
    }
  }

  /** Coalescing keeps notifications: under the session writers' discipline any rewriting of
  the queue, emptied batches dropped, raises the same notifications per chat in the same order. */
  lemma {:induction false} RewritingKeepsNotes(trace: seq<Batches>, fits: Op -> bool, v: View, id: string, now: real)
    requires Rewriting(trace, fits) && Steady(v.session, trace[0], Key(SESSIONS, id))
    ensures Notes(v, DropEmpty(trace[|trace| - 1]), id, now) == Notes(v, trace[0], id, now)
  {
    StepsKeepNotes(trace, fits, v, id, now);
    DropEmptyKeepsNotes(v, trace[|trace| - 1], id, now);
  }

  lemma {:induction false} DropEmptyKeepsNotes(v: View, q: Batches, id: string, now: real)
    ensures Notes(v, DropEmpty(q), id, now) == Notes(v, q, id, now)
    decreases |q|
  {
    if q != [] {
      DropEmptyKeepsNotes(ViewAfter(v, [q[0]], id), q[1..], id, now);
      if q[0] != [] {
        assert DropEmpty(q)[0] == q[0] && DropEmpty(q)[1..] == DropEmpty(q[1..]);
      } else {
        EmptyBatch(v, id, now);
        assert DropEmpty(q) == DropEmpty(q[1..]);
      }
    }
  }
}
