/** The room that serves a workspace registry (edge/src/registry-room.ts:139-200, 383-622): one row
table, one sequence counter, a tombstone horizon. */
module RegistryRoom {
  import opened Wrappers
  import opened Hlc
  import opened RegistryCore
  import opened MergeLaws
  import opened Queue
  import opened PushNotify
  import opened QueueNotes
  import opened RowTable

  const MAX_BATCH_OPS := 500

  datatype Server = Server(rows: Table, seqNo: nat, gcFloor: nat)

  /** What a hello is answered with. */
  datatype StateFrame = StateFrame(seqNo: nat, full: bool, gcFloor: nat, rows: Table)

  datatype PushOutcome = Rejected | Accepted(seqNo: nat, applied: nat)

  ghost predicate ServerValid(s: Server) {
    && Keyed(s.rows) && AllWellFormed(s.rows) && s.gcFloor <= s.seqNo
    && forall k {:trigger s.rows[k]} :: k in s.rows ==> 1 <= s.rows[k].seqNo <= s.seqNo
  }

  /** The row without the room's position stamp, which no merge looks at. */
  function Bare(row: Option<Row>): Option<Row> {
    if row.Some? then Some(row.value.(seqNo := 0)) else None
  }

  lemma {:induction false} BareApply(row: Option<Row>, op: Op)
    ensures Bare(ApplyOp(row, op).row) == ApplyOp(Bare(row), op).row
    ensures ApplyOp(row, op).changed == ApplyOp(Bare(row), op).changed
    ensures ApplyOp(row, op).changed ==> ApplyOp(row, op).row.Some?
    ensures row.Some? ==> ApplyOp(row, op).row.Some? && ApplyOp(row, op).row.value.key == row.value.key
    ensures ApplyOp(row, op).row.Some? ==> ApplyOp(row, op).row.value.key == if row.Some? then row.value.key else op.key
  {
    if row.Some? {
      var bare := Bare(row).value;
      assert AllClocks(row.value) == AllClocks(bare);
      if row.value.deleted && op.op != Delete {
        BareWrites(row.value.(deleted := false, fields := map[], clocks := map[]), op);
      } else {
        BareWrites(row.value, op);
        BareNewest(row.value);
      }
    }
  }

  lemma {:induction false} BareWrites(base: Row, op: Op)
    ensures WriteFields(base, op).(seqNo := 0) == WriteFields(base.(seqNo := 0), op)
    ensures Winners(base, op) == Winners(base.(seqNo := 0), op)
  {
    var bare := base.(seqNo := 0);
    assert Winners(base, op) == Winners(bare, op) by {
      assert forall k :: Lands(base, op, k) <==> Lands(bare, op, k);
    }
    assert WriteFields(base, op).fields == WriteFields(bare, op).fields;
    assert WriteFields(base, op).clocks == WriteFields(bare, op).clocks;
  }

  lemma {:induction false} BareNewest(row: Row)
    ensures MaxClock(row) == MaxClock(row.(seqNo := 0))
  {
    assert AllClocks(row) == AllClocks(row.(seqNo := 0));
  }

  lemma {:induction false} BareFold(row: Option<Row>, ops: seq<Op>, key: Key)
    ensures Bare(FoldOps(row, ops, key)) == FoldOps(Bare(row), ops, key)
    decreases |ops|
  {
    if ops != [] {
      BareApply(row, ops[0]);
      BareFold(if ops[0].key == key then ApplyOp(row, ops[0]).row else row, ops[1..], key);
    }
  }

  // ── what one push does ────────────────────────────────────────────────────

  /** The room after a batch, against the merge of every op in order: exactly the rows some op
  changed move, all to one fresh position, and are what is broadcast. */
  ghost predicate RoomMerged(s: Server, ops: seq<Op>, s': Server, touched: Table) {
    && s'.gcFloor == s.gcFloor && s'.rows == s.rows + touched
    && s'.seqNo == (if touched == map[] then s.seqNo else s.seqNo + 1)
    && forall k :: PushedRow(RowAt(s.rows, k), ops, k, RowAt(touched, k), s'.seqNo)
  }

  ghost predicate PushedRow(before: Option<Row>, ops: seq<Op>, k: Key, touched: Option<Row>, seqNo: nat) {
    && (touched.Some? <==> Touches(before, ops, k))
    && (touched.Some? ==> touched.value.seqNo == seqNo && touched.value.key == k)
    && (touched.Some? ==> Bare(touched) == Bare(FoldOps(before, ops, k)))
  }

  lemma {:induction false} TouchesLast(row: Option<Row>, ops: seq<Op>, op: Op, key: Key)
    ensures Touches(row, ops + [op], key) <==>
      Touches(row, ops, key) || (op.key == key && ApplyOp(FoldOps(row, ops, key), op).changed)
    decreases |ops|
  {
    if ops == [] {
      assert [] + [op] == [op] && [op][1..] == [];
    } else {
      assert (ops + [op])[0] == ops[0] && (ops + [op])[1..] == ops[1..] + [op];
      TouchesLast(if ops[0].key == key then ApplyOp(row, ops[0]).row else row, ops[1..], op, key);
    }
  }

  lemma {:induction false} FoldLast(row: Option<Row>, ops: seq<Op>, op: Op, key: Key)
    ensures FoldOps(row, ops + [op], key)
         == if op.key == key then ApplyOp(FoldOps(row, ops, key), op).row else FoldOps(row, ops, key)
  {
    FoldOpsConcat(row, ops, [op], key);
    FoldSingle(FoldOps(row, ops, key), op, key);
  }

  /** The row the loop works on: touched in this batch, or stored. */
  function Current(rows: Table, touched: Table, k: Key): Option<Row> {
    if k in touched then Some(touched[k]) else RowAt(rows, k)
  }

  ghost predicate Progress(before: Option<Row>, ops: seq<Op>, k: Key, touched: Option<Row>, seqNo: nat) {
    && PushedRow(before, ops, k, touched, seqNo)
    && (touched == None ==> FoldOps(before, ops, k) == before)
  }

  lemma {:induction false} ProgressStep(before: Option<Row>, ops: seq<Op>, op: Op, touched: Option<Row>, seqNo: nat)
    requires Progress(before, ops, op.key, touched, seqNo)
    requires before.Some? ==> before.value.key == op.key
    ensures var applied := ApplyOp(if touched.Some? then touched else before, op);
      && (applied.changed ==> applied.row.Some?) && applied.changed == ApplyOp(FoldOps(before, ops, op.key), op).changed
      && (applied.changed ==> Progress(before, ops + [op], op.key, Some(applied.row.value.(seqNo := seqNo)), seqNo))
      && (!applied.changed ==> Progress(before, ops + [op], op.key, touched, seqNo))
  {
    var current := if touched.Some? then touched else before;
    TouchesLast(before, ops, op, op.key);
    FoldLast(before, ops, op, op.key);
    BareApply(current, op);
    BareApply(FoldOps(before, ops, op.key), op);
    UnchangedIfSame(current, op);
    hide FoldOps, Touches, ApplyOp;
  }

  lemma {:induction false} UnchangedIfSame(row: Option<Row>, op: Op)
    ensures !ApplyOp(row, op).changed ==> ApplyOp(row, op).row == row
  {
    if !ApplyOp(row, op).changed {
      UnchangedIsSame(row, op);
    }
  }

  lemma {:induction false} ProgressElsewhere(before: Option<Row>, ops: seq<Op>, op: Op, k: Key, touched: Option<Row>, seqNo: nat)
    requires k != op.key && Progress(before, ops, k, touched, seqNo)
    ensures Progress(before, ops + [op], k, touched, seqNo)
  {
    TouchesLast(before, ops, op, k);
    FoldLast(before, ops, op, k);
  }

  /** How many ops change their row, each merged over what the ones before it made of that row. */
  ghost function Landed(rows: Table, ops: seq<Op>): nat
    decreases |ops|
  {
    if ops == [] then 0
    else
      var front, op := ops[..|ops| - 1], ops[|ops| - 1];
      Landed(rows, front) + if ApplyOp(FoldOps(RowAt(rows, op.key), front, op.key), op).changed then 1 else 0
  }

  lemma {:induction false} LandedMore(rows: Table, ops: seq<Op>, op: Op)
    ensures Landed(rows, ops + [op])
      == Landed(rows, ops) + if ApplyOp(FoldOps(RowAt(rows, op.key), ops, op.key), op).changed then 1 else 0
  {
    assert (ops + [op])[..|ops|] == ops;
  }

  /** One op of the loop. */
  method MergeOp(rows: Table, touched: Table, applied: nat, before: Option<Row>, op: Op, ghost ops: seq<Op>, nextSeq: nat)
    returns (touched': Table, applied': nat)
    requires Keyed(rows) && before == Current(rows, touched, op.key)
    requires forall k :: Progress(RowAt(rows, k), ops, k, RowAt(touched, k), nextSeq)
    requires (applied > 0 <==> touched != map[]) && applied == Landed(rows, ops)
    ensures forall k :: Progress(RowAt(rows, k), ops + [op], k, RowAt(touched', k), nextSeq)
    ensures (applied' > 0 <==> touched' != map[]) && applied' == Landed(rows, ops + [op])
  {
    hide FoldOps, Touches, ApplyOp, Progress, Landed;
    touched', applied' := touched, applied;
    var next := ApplyOp(before, op);
    ProgressStep(RowAt(rows, op.key), ops, op, RowAt(touched, op.key), nextSeq);
    LandedMore(rows, ops, op);
    if next.changed && next.row.Some? {
      applied' := applied + 1;
      touched' := touched[op.key := next.row.value.(seqNo := nextSeq)];
    }
    forall k ensures Progress(RowAt(rows, k), ops + [op], k, RowAt(touched', k), nextSeq) {
      if k != op.key {
        ProgressElsewhere(RowAt(rows, k), ops, op, k, RowAt(touched, k), nextSeq);
      }
    }
  }

  /** Merge a batch over a table, op by op. `sessionsBefore` keeps each session row it meets as it
  was before the batch. */
  method MergeBatch(rows: Table, ops: seq<Op>, nextSeq: nat)
    returns (touched: Table, applied: nat, sessionsBefore: map<string, Option<Row>>)
    requires Keyed(rows)
    ensures forall k :: Progress(RowAt(rows, k), ops, k, RowAt(touched, k), nextSeq)
    ensures (applied > 0 <==> touched != map[]) && applied == Landed(rows, ops)
    ensures forall id :: id in sessionsBefore <==> Mentions(ops, Key(SESSIONS, id))
    ensures forall id :: id in sessionsBefore ==> sessionsBefore[id] == RowAt(rows, Key(SESSIONS, id))
  {
    touched, applied, sessionsBefore := map[], 0, map[];
    assert Landed(rows, []) == 0 && ops[..0] == [];
    hide FoldOps, Touches, ApplyOp, Progress, Landed;
    forall k ensures Progress(RowAt(rows, k), [], k, None, nextSeq) {
      NoProgress(RowAt(rows, k), k, nextSeq);
    }
    for i := 0 to |ops|
      invariant forall k :: Progress(RowAt(rows, k), ops[..i], k, RowAt(touched, k), nextSeq)
      invariant (applied > 0 <==> touched != map[]) && applied == Landed(rows, ops[..i])
      invariant forall id :: id in sessionsBefore <==> Mentions(ops[..i], Key(SESSIONS, id))
      invariant forall id :: id in sessionsBefore ==> sessionsBefore[id] == RowAt(rows, Key(SESSIONS, id))
    {
      var op := ops[i];
      var before := Current(rows, touched, op.key);
      assert ops[..i + 1] == ops[..i] + [op];
      MentionsLast(ops[..i], op);
      if op.key.kind == SESSIONS && op.key.id !in sessionsBefore {
        UnmentionedUntouched(RowAt(rows, op.key), ops[..i], op.key, RowAt(touched, op.key), nextSeq);
        sessionsBefore := sessionsBefore[op.key.id := before];
      }
      touched, applied := MergeOp(rows, touched, applied, before, op, ops[..i], nextSeq);
    }
    assert ops[..|ops|] == ops;
  }

  lemma {:induction false} NoProgress(row: Option<Row>, k: Key, seqNo: nat)
    ensures Progress(row, [], k, None, seqNo)
  {
  }

  lemma {:induction false} MentionsLast(ops: seq<Op>, op: Op)
    ensures forall k :: Mentions(ops + [op], k) <==> Mentions(ops, k) || op.key == k
  {
    forall k ensures Mentions(ops + [op], k) <==> Mentions(ops, k) || op.key == k {
      if Mentions(ops, k) {
        var i :| 0 <= i < |ops| && ops[i].key == k;
        assert (ops + [op])[i].key == k;
      }
      assert (ops + [op])[|ops|] == op;
    }
  }

  lemma {:induction false} UnmentionedUntouched(row: Option<Row>, ops: seq<Op>, key: Key, touched: Option<Row>, seqNo: nat)
    requires !Mentions(ops, key) && Progress(row, ops, key, touched, seqNo)
    ensures touched == None
  {
    Unmentioned(row, ops, key);
  }

  lemma {:induction false} Unmentioned(row: Option<Row>, ops: seq<Op>, key: Key)
    requires !Mentions(ops, key)
    ensures !Touches(row, ops, key)
    decreases |ops|
  {
    if ops != [] {
      assert ops[0].key != key;
      assert forall i :: 0 <= i < |ops[1..]| ==> ops[1..][i] == ops[i + 1];
      Unmentioned(row, ops[1..], key);
    }
  }

  /** A batch leaves a valid room valid: what it touched is stamped with its one new position, and
  well formed. */
  lemma {:induction false} MergedValid(s: Server, ops: seq<Op>, s': Server, touched: Table)
    requires ServerValid(s) && RoomMerged(s, ops, s', touched)
    ensures ServerValid(s') && AllWellFormed(touched)
    ensures forall k :: k in touched ==> touched[k].seqNo == s'.seqNo == s.seqNo + 1
  {
    forall k | k in touched
      ensures touched[k].seqNo == s'.seqNo && touched[k].key == k && WellFormed(touched[k])
    {
      assert PushedRow(RowAt(s.rows, k), ops, k, RowAt(touched, k), s'.seqNo);
      FoldKeepsShape(RowAt(s.rows, k), ops, k);
      assert Bare(Some(touched[k])) == Bare(FoldOps(RowAt(s.rows, k), ops, k));
    }
    hide PushedRow, WellFormed;
  }

  lemma {:induction false} CollectedValid(s: Server, horizon: Clock, s': Server, purged: Table)
    requires ServerValid(s) && Collected(s, horizon, s', purged)
    ensures ServerValid(s')
  {
    hide WellFormed;
    forall k | k in s'.rows ensures s'.rows[k].key == k && 1 <= s'.rows[k].seqNo <= s'.seqNo && WellFormed(s'.rows[k]) {
      assert s'.rows[k] == s.rows[k];
    }
    if k :| k in purged && purged[k].seqNo == s'.gcFloor {
      assert s.rows[k] == purged[k];
    }
  }

  // ── notifications of one push ─────────────────────────────────────────────

  /** The room's note for a chat, read off the rows it stored. */
  function StoredNote(prev: Option<Row>, next: Option<Row>, chat: Option<Row>, now: real): Option<Note> {
    if next == None then None
    else
      var category := NotificationFor(prev, next.value, now);
      var title := ChatForNotification(chat);
      if category.Some? && title.Some? then Some(Note(category.value, title.value)) else None
  }

  lemma {:induction false} BareNote(prev: Option<Row>, next: Row, chat: Option<Row>, next': Row, chat': Option<Row>, now: real)
    requires Bare(Some(next)) == Bare(Some(next')) && Bare(chat) == Bare(chat')
    ensures StoredNote(prev, Some(next), chat, now) == StoredNote(prev, Some(next'), chat', now)
  {
    assert chat.Some? <==> chat'.Some?;
  }

  /** Position stamps aside, the note is the one the batch raises for that chat. */
  lemma {:induction false} StoredNoteIsBatchNote(rows: Table, ops: seq<Op>, touched: Table, nextSeq: nat, id: string, now: real)
    requires forall k :: Progress(RowAt(rows, k), ops, k, RowAt(touched, k), nextSeq)
    ensures var s, c := Key(SESSIONS, id), Key(CHATS, id);
      var note := StoredNote(RowAt(rows, s), RowAt(touched, s), Current(rows, touched, c), now);
      BatchNote(View(RowAt(rows, s), RowAt(rows, c)), ops, id, now) == if note.Some? then [note.value] else []
  {
    var s, c := Key(SESSIONS, id), Key(CHATS, id);
    assert Progress(RowAt(rows, s), ops, s, RowAt(touched, s), nextSeq);
    assert Progress(RowAt(rows, c), ops, c, RowAt(touched, c), nextSeq);
    var after := FoldOps(RowAt(rows, s), ops, s);
    if s in touched && after.Some? {
      BareNote(RowAt(rows, s), touched[s], Current(rows, touched, c), after.value, FoldOps(RowAt(rows, c), ops, c), now);
    }
    hide FoldOps, Touches, NotificationFor, ChatForNotification;
  }

  function NoteFor(notes: map<string, Note>, id: string): seq<Note> {
    if id in notes then [notes[id]] else []
  }

  /** The notification a batch raises for a chat, over the rows as they stand. */
  function RowsNote(rows: Table, ops: seq<Op>, id: string, now: real): seq<Note> {
    BatchNote(View(RowAt(rows, Key(SESSIONS, id)), RowAt(rows, Key(CHATS, id))), ops, id, now)
  }

  /** The session row was there, was touched and changed as the category says, and its chat is not
  silent. */
  ghost predicate Raises(before: Table, after: Table, touched: Table, id: string, category: Category, now: real) {
    var s, c := Key("sessions", id), Key("chats", id);
    && s in before && s in touched && Calls(before[s], touched[s], category, now)
    && !(c in after && Silent(after[c]))
  }

  /** The notes of one chat, read off the rows: the category is the one raised, if any, and the
  title is the chat's. */
  ghost predicate Announced(before: Table, after: Table, touched: Table, notes: map<string, Note>, id: string, now: real) {
    var c := Key("chats", id);
    && (forall category :: id in notes && notes[id].category == category <==> Raises(before, after, touched, id, category, now))
    && (id in notes ==> Titled(if c in after then Some(after[c]) else None, notes[id].title))
  }

  lemma {:induction false} StoredNoteIff(prev: Option<Row>, next: Option<Row>, chat: Option<Row>, now: real, category: Category)
    ensures var note := StoredNote(prev, next, chat, now);
      && (note.Some? && note.value.category == category <==>
           next.Some? && prev.Some? && Calls(prev.value, next.value, category, now) && !(chat.Some? && Silent(chat.value)))
      && (note.Some? ==> Titled(chat, note.value.title))
  {
    TitleIff(chat);
    if prev.Some? && next.Some? {
      CategoryIff(prev.value, next.value, category, now);
    }
    hide Calls, Silent, Titled, ChatForNotification;
  }

  lemma {:induction false} AnnouncedNote(before: Table, after: Table, touched: Table, notes: map<string, Note>, id: string, now: real)
    requires after == before + touched
    requires Lookup(notes, id)
      == StoredNote(RowAt(before, Key(SESSIONS, id)), RowAt(touched, Key(SESSIONS, id)), Current(before, touched, Key(CHATS, id)), now)
    ensures Announced(before, after, touched, notes, id, now)
  {
    hide StoredNote, Calls, Silent, Titled;
    var s, c := Key("sessions", id), Key("chats", id);
    var chat := if c in after then Some(after[c]) else None;
    assert chat == Current(before, touched, c);
    forall category
      ensures id in notes && notes[id].category == category <==> Raises(before, after, touched, id, category, now)
    {
      StoredNoteIff(RowAt(before, s), RowAt(touched, s), chat, now, category);
    }
    assert id in notes ==> Titled(chat, notes[id].title) by {
      StoredNoteIff(RowAt(before, s), RowAt(touched, s), chat, now, Done);
    }
  }

  // ── the room ──────────────────────────────────────────────────────────────

  class RegistryRoom {
    const valid: Op -> bool
    var rows: Table
    var seqNo: nat
    var gcFloor: nat

    ghost function Model(): Server
      reads this
    {
      Server(rows, seqNo, gcFloor)
    }

    ghost predicate Valid()
      reads this
    {
      ServerValid(Model())
    }

    constructor (valid: Op -> bool)
      ensures Valid() && Model() == Server(map[], 0, 0)
    {
      this.valid, rows, seqNo, gcFloor := valid, map[], 0, 0;
    }

    /** The ops all pass validation. */
    method ValidateAll(ops: seq<Op>) returns (ok: bool)
      ensures ok <==> forall i :: 0 <= i < |ops| ==> valid(ops[i])
    {
      for i := 0 to |ops|
        invariant forall j :: 0 <= j < i ==> valid(ops[j])
      {
        if !valid(ops[i]) {
          return false;
        }
      }
      return true;
    }

    /** Apply one batch whole, or not at all. `notes` are the phone notifications it raises. */
    method ApplyPushBatch(ops: seq<Op>, now: real)
      returns (outcome: PushOutcome, touched: Table, notes: map<string, Note>)
      requires Valid()
      modifies this
      ensures Valid()
      ensures outcome == Rejected <==> |ops| == 0 || |ops| > MAX_BATCH_OPS || exists i :: 0 <= i < |ops| && !valid(ops[i])
      ensures outcome == Rejected ==> Model() == old(Model()) && touched == map[] && notes == map[]
      ensures outcome.Accepted? ==> RoomMerged(old(Model()), ops, Model(), touched) && outcome.seqNo == seqNo
      ensures outcome.Accepted? ==> (outcome.applied == 0 <==> touched == map[]) && outcome.applied == Landed(old(rows), ops)
      ensures outcome.Accepted? ==> forall id :: NoteFor(notes, id) == RowsNote(old(rows), ops, id, now)
      ensures outcome.Accepted? ==> forall id :: Announced(old(rows), rows, touched, notes, id, now)
    {
      touched, notes := map[], map[];
      if |ops| == 0 || |ops| > MAX_BATCH_OPS {
        return Rejected, touched, notes;
      }
      var ok := ValidateAll(ops);
      if !ok {
        return Rejected, touched, notes;
      }
      hide FoldOps, Touches, BatchNote, StoredNote, Announced;
      var applied, sessionsBefore;
      touched, applied, sessionsBefore := MergeBatch(rows, ops, seqNo + 1);
      ghost var before := rows;
      var stored := rows + touched;
      notes := NotifySessions(rows, touched, sessionsBefore, ops, seqNo + 1, now);
      forall k ensures PushedRow(RowAt(rows, k), ops, k, RowAt(touched, k), if touched == map[] then seqNo else seqNo + 1) {
        assert Progress(RowAt(rows, k), ops, k, RowAt(touched, k), seqNo + 1);
      }
      if applied > 0 {
        rows, seqNo := stored, seqNo + 1;
      } else {
        assert rows + touched == rows;
      }
      MergedValid(old(Model()), ops, Model(), touched);
      hide AllWellFormed, Keyed;
      outcome := Accepted(seqNo, applied);
      forall i | 0 <= i < |ops| ensures valid(ops[i]) {
      }
    }

    /** The notification decision for every session row the batch touched. */
    method NotifySessions(rows: Table, touched: Table, sessionsBefore: map<string, Option<Row>>, ghost ops: seq<Op>, ghost nextSeq: nat, now: real)
      returns (notes: map<string, Note>)
      requires forall k :: Progress(RowAt(rows, k), ops, k, RowAt(touched, k), nextSeq)
      requires forall id :: id in sessionsBefore <==> Mentions(ops, Key(SESSIONS, id))
      requires forall id :: id in sessionsBefore ==> sessionsBefore[id] == RowAt(rows, Key(SESSIONS, id))
      ensures forall id :: NoteFor(notes, id) == RowsNote(rows, ops, id, now)
      ensures forall id :: Announced(rows, rows + touched, touched, notes, id, now)
    {
      hide Progress, FoldOps, Touches, BatchNote, StoredNote, Announced;
      notes := map[];
      var rest := sessionsBefore.Keys;
      while rest != {}
        invariant rest <= sessionsBefore.Keys
        invariant forall id :: id in sessionsBefore && id !in rest ==>
          Lookup(notes, id) == StoredNote(sessionsBefore[id], RowAt(touched, Key(SESSIONS, id)), Current(rows, touched, Key(CHATS, id)), now)
        invariant forall id :: id in notes ==> id in sessionsBefore && id !in rest
      {
        var id :| id in rest;
        var note := StoredNote(sessionsBefore[id], RowAt(touched, Key(SESSIONS, id)), Current(rows, touched, Key(CHATS, id)), now);
        if note.Some? {
          notes := notes[id := note.value];
        }
        rest := rest - {id};
      }
      forall id ensures NoteFor(notes, id) == RowsNote(rows, ops, id, now) && Announced(rows, rows + touched, touched, notes, id, now) {
        StoredNoteIsBatchNote(rows, ops, touched, nextSeq, id, now);
        var s := Key(SESSIONS, id);
        if id !in sessionsBefore {
          UnmentionedUntouched(RowAt(rows, s), ops, s, RowAt(touched, s), nextSeq);
          NoStoredNote(RowAt(rows, s), Current(rows, touched, Key(CHATS, id)), now);
        }
        AnnouncedNote(rows, rows + touched, touched, notes, id, now);
      }
    }

    /** Answer a hello carrying the replica's cursor, if it sent one. */
    method HandleHello(cursor: Option<nat>) returns (frame: StateFrame)
      requires Valid()
      ensures Answers(Model(), cursor, frame)
    {
      var full := cursor == None || cursor.value < gcFloor || cursor.value > seqNo;
      var list := RowsSince(if full then 0 else cursor.value);
      frame := StateFrame(seqNo, full, gcFloor, list);
    }

    /** The rows stamped past a position. */
    method RowsSince(cursor: nat) returns (list: Table)
      ensures forall k :: k in list <==> k in rows && rows[k].seqNo > cursor
      ensures forall k :: k in list ==> list[k] == rows[k]
    {
      list := map[];
      var rest := rows.Keys;
      while rest != {}
        invariant rest <= rows.Keys
        invariant forall k :: k in list <==> k in rows && k !in rest && rows[k].seqNo > cursor
        invariant forall k :: k in list ==> list[k] == rows[k]
      {
        var k :| k in rest;
        if rows[k].seqNo > cursor {
          list := list[k := rows[k]];
        }
        rest := rest - {k};
      }
    }

    /** The daily alarm: purge tombstones older than the horizon. */
    method CollectTombstones(horizon: Clock) returns (purged: Table)
      requires Valid()
      modifies this
      ensures Valid() && Collected(old(Model()), horizon, Model(), purged)
    {
      var purgedMaxSeq := NewestExpired(horizon);
      hide AllWellFormed, Keyed;
      purged := map k | k in rows && Expired(rows[k], horizon) :: rows[k];
      if purgedMaxSeq > 0 {
        assert exists k :: k in purged && purged[k].seqNo == purgedMaxSeq by {
          ghost var k :| k in rows && Expired(rows[k], horizon) && rows[k].seqNo == purgedMaxSeq;
          assert k in purged;
        }
        rows := map k | k in rows && !Expired(rows[k], horizon) :: rows[k];
        if purgedMaxSeq > gcFloor {
          gcFloor := purgedMaxSeq;
        }
      }
      CollectedValid(old(Model()), horizon, Model(), purged);
    }

    /** The newest position of a tombstone the purge takes; zero if it takes none. */
    method NewestExpired(horizon: Clock) returns (newest: nat)
      requires Valid()
      ensures newest <= seqNo && forall k :: k in rows && Expired(rows[k], horizon) ==> rows[k].seqNo <= newest
      ensures if newest == 0 then forall k :: k in rows ==> !Expired(rows[k], horizon)
              else exists k :: k in rows && Expired(rows[k], horizon) && rows[k].seqNo == newest
    {
      hide AllWellFormed, Keyed;
      newest := 0;
      var rest := rows.Keys;
      while rest != {}
        invariant rest <= rows.Keys && newest <= seqNo
        invariant forall k :: k in rows && k !in rest && Expired(rows[k], horizon) ==> rows[k].seqNo <= newest
        invariant newest == 0 || exists k :: k in rows && k !in rest && Expired(rows[k], horizon) && rows[k].seqNo == newest
      {
        var k :| k in rest;
        if Expired(rows[k], horizon) && rows[k].seqNo > newest {
          newest := rows[k].seqNo;
        }
        rest := rest - {k};
      }
      assert forall k :: k in rows ==> 1 <= Model().rows[k].seqNo;
    }
  }

  lemma {:induction false} NoStoredNote(prev: Option<Row>, chat: Option<Row>, now: real)
    ensures StoredNote(prev, None, chat, now) == None
  {
  }

  /** A replica that sent no cursor, or one from before the purge floor or ahead of the room, is to
  replace its rows by every row of the room; any other is sent every row written past its cursor,
  and no other. */
  ghost predicate Answers(s: Server, cursor: Option<nat>, frame: StateFrame) {
    && frame.seqNo == s.seqNo && frame.gcFloor == s.gcFloor
    && (frame.full <==> cursor == None || !(s.gcFloor <= cursor.value <= s.seqNo))
    && (forall k {:trigger k in frame.rows} {:trigger k in s.rows} :: k in frame.rows <==> k in s.rows && (frame.full || s.rows[k].seqNo > cursor.value))
    && (forall k {:trigger frame.rows[k]} :: k in frame.rows ==> frame.rows[k] == s.rows[k])
  }

  /** Every row written up to `cursor` is held as the room holds it. */
  predicate HeldUpTo(auth: Table, s: Server, cursor: nat) {
    forall k {:trigger k in s.rows} :: k in s.rows && s.rows[k].seqNo <= cursor ==> k in auth && auth[k] == s.rows[k]
  }

  /** Whatever the replica held at the cursor it sent, the answer brings it to the room's position:
  a full one from nothing, a delta from every row up to the cursor. */
  lemma {:induction false} AnswerCatchesUp(s: Server, cursor: Option<nat>, frame: StateFrame, auth: Table)
    requires ServerValid(s) && Answers(s, cursor, frame)
    requires cursor.Some? && cursor.value <= s.seqNo ==> HeldUpTo(auth, s, cursor.value)
    ensures HeldUpTo(if frame.full then frame.rows else auth + frame.rows, s, frame.seqNo)
    ensures frame.full ==> frame.rows == s.rows
  {
    if frame.full {
      assert frame.rows.Keys == s.rows.Keys;
    }
  }

  predicate Expired(row: Row, horizon: Clock) {
    row.deleted && row.delHlc.Some? && row.delHlc.value < horizon
  }

  /** A purge takes exactly the expired tombstones, and no purged position is above the new floor. */
  ghost predicate Collected(s: Server, horizon: Clock, s': Server, purged: Table) {
    && s'.seqNo == s.seqNo && s.gcFloor <= s'.gcFloor
    && (forall k :: k in purged <==>
         k in s.rows && s.rows[k].deleted && s.rows[k].delHlc.Some? && s.rows[k].delHlc.value < horizon)
    && (forall k {:trigger purged[k]} :: k in purged ==> purged[k] == s.rows[k] && purged[k].seqNo <= s'.gcFloor)
    && s'.rows == s.rows - purged.Keys
    && (s'.gcFloor == s.gcFloor || exists k :: k in purged && purged[k].seqNo == s'.gcFloor)
  }
}
