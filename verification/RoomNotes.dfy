/** What a phone is notified of while a room takes a replica's queue, batch after batch, and that
rewriting the queue first changes none of it (crates/doc/src/registry.rs:829-952 against
edge/src/registry-room.ts:425-519). */
module RoomNotes {
  import opened Wrappers
  import opened Seqs
  import opened Hlc
  import opened RegistryCore
  import opened Queue
  import opened PushNotify
  import opened QueueNotes
  import opened RowTable
  import opened PendingQueue
  import opened RegistryRoom

  // ── position stamps do not show ───────────────────────────────────────────

  lemma {:induction false} BareTouches(row: Option<Row>, ops: seq<Op>, key: Key)
    ensures Touches(row, ops, key) == Touches(Bare(row), ops, key)
    decreases |ops|
  {
    if ops != [] {
      BareApply(row, ops[0]);
      BareTouches(if ops[0].key == key then ApplyOp(row, ops[0]).row else row, ops[1..], key);
    }
  }

  predicate SameBare(v: View, w: View) {
    Bare(v.session) == Bare(w.session) && Bare(v.chat) == Bare(w.chat)
  }

  lemma {:induction false} BareDecides(s: Option<Row>, t: Option<Row>, next: Row, next': Row, now: real)
    requires Bare(s) == Bare(t) && Bare(Some(next)) == Bare(Some(next'))
    ensures NotificationFor(s, next, now) == NotificationFor(t, next', now)
  {
    assert s.Some? <==> t.Some?;
  }

  lemma {:induction false} BareTitle(c: Option<Row>, d: Option<Row>)
    requires Bare(c) == Bare(d)
    ensures ChatForNotification(c) == ChatForNotification(d)
  {
    assert c.Some? <==> d.Some?;
  }

  lemma {:induction false} BareBatchNote(v: View, w: View, ops: seq<Op>, id: string, now: real)
    requires SameBare(v, w)
    ensures BatchNote(v, ops, id, now) == BatchNote(w, ops, id, now)
    ensures SameBare(ViewAfter(v, [ops], id), ViewAfter(w, [ops], id))
  {
    var s, c := Key(SESSIONS, id), Key(CHATS, id);
    BareTouches(v.session, ops, s);
    BareTouches(w.session, ops, s);
    BareFold(v.session, ops, s);
    BareFold(w.session, ops, s);
    BareFold(v.chat, ops, c);
    BareFold(w.chat, ops, c);
    FoldOne(v.session, ops, s);
    FoldOne(w.session, ops, s);
    FoldOne(v.chat, ops, c);
    FoldOne(w.chat, ops, c);
    var x, y := FoldOps(v.session, ops, s), FoldOps(w.session, ops, s);
    hide FoldOps, Fold, Touches, NotificationFor, ChatForNotification;
    BareTitle(FoldOps(v.chat, ops, c), FoldOps(w.chat, ops, c));
    if x.Some? && y.Some? {
      BareDecides(v.session, w.session, x.value, y.value, now);
    }
  }

  lemma {:induction false} BareNotes(v: View, w: View, q: Batches, id: string, now: real)
    requires SameBare(v, w)
    ensures Notes(v, q, id, now) == Notes(w, q, id, now)
    decreases |q|
  {
    if q != [] {
      BareBatchNote(v, w, q[0], id, now);
      hide BatchNote, SameBare, ViewAfter;
      BareNotes(ViewAfter(v, [q[0]], id), ViewAfter(w, [q[0]], id), q[1..], id, now);
    }
  }

  // ── a queue taken by the room ─────────────────────────────────────────────

  /** The room takes the batches one by one; `servers` is its state before each and at the end. */
  ghost predicate TakenInTurn(servers: seq<Server>, q: Batches)
    decreases |q|
  {
    && |servers| == |q| + 1
    && (q == [] || ((exists touched :: RoomMerged(servers[0], q[0], servers[1], touched)) && TakenInTurn(servers[1..], q[1..])))
  }

  /** The notifications about one chat, in order, as each batch lands. */
  function NotesInTurn(servers: seq<Server>, q: Batches, id: string, now: real): seq<Note>
    requires |servers| == |q| + 1
    decreases |q|
  {
    if q == [] then [] else RowsNote(servers[0].rows, q[0], id, now) + NotesInTurn(servers[1..], q[1..], id, now)
  }

  function ViewOf(rows: Table, id: string): View {
    View(RowAt(rows, Key(SESSIONS, id)), RowAt(rows, Key(CHATS, id)))
  }

  /** A merged table reads, stamps aside, as the fold of the batch. */
  lemma {:induction false} MergedView(s: Server, ops: seq<Op>, s': Server, touched: Table, k: Key)
    requires RoomMerged(s, ops, s', touched)
    ensures Bare(RowAt(s'.rows, k)) == Bare(FoldOps(RowAt(s.rows, k), ops, k))
  {
    assert PushedRow(RowAt(s.rows, k), ops, k, RowAt(touched, k), s'.seqNo);
    UntouchedFold(RowAt(s.rows, k), ops, k);
    hide FoldOps, Touches, PushedRow;
  }

  lemma {:induction false} UntouchedFold(row: Option<Row>, ops: seq<Op>, key: Key)
    ensures !Touches(row, ops, key) ==> FoldOps(row, ops, key) == row
    decreases |ops|
  {
    if ops != [] && !Touches(row, ops, key) {
      if ops[0].key == key {
        UnchangedIfSame(row, ops[0]);
      }
      UntouchedFold(row, ops[1..], key);
    }
  }

  /** What the room raises is what the queue, replayed over its rows, raises. */
  lemma {:induction false} RoomRaises(servers: seq<Server>, q: Batches, id: string, now: real)
    requires TakenInTurn(servers, q)
    ensures NotesInTurn(servers, q, id, now) == Notes(ViewOf(servers[0].rows, id), q, id, now)
    decreases |q|
  {
    if q != [] {
      var touched :| RoomMerged(servers[0], q[0], servers[1], touched);
      var v, w := ViewOf(servers[0].rows, id), ViewOf(servers[1].rows, id);
      RoomRaises(servers[1..], q[1..], id, now);
      MergedView(servers[0], q[0], servers[1], touched, Key(SESSIONS, id));
      MergedView(servers[0], q[0], servers[1], touched, Key(CHATS, id));
      FoldOne(v.session, q[0], Key(SESSIONS, id));
      FoldOne(v.chat, q[0], Key(CHATS, id));
      hide BatchNote, RoomMerged, FoldOps, Fold;
      assert SameBare(ViewAfter(v, [q[0]], id), w);
      BareNotes(ViewAfter(v, [q[0]], id), w, q[1..], id, now);
    }
  }

  /** Pushing the rewritten queue notifies about every chat exactly as pushing the queue as written
  would have: same categories, same titles, same order. */
  lemma {:induction false} CoalescingKeepsNotifications(before: seq<PendingBatch>, added: Batches, after: seq<PendingBatch>, trace: seq<Batches>, fits: Op -> bool,
      written: seq<Server>, rewritten: seq<Server>, id: string, now: real)
    requires Requeued(before, added, after, trace, fits)
    requires TakenInTurn(written, OpsOf(before) + added) && TakenInTurn(rewritten, OpsOf(after)) && written[0] == rewritten[0]
    requires Steady(RowAt(written[0].rows, Key(SESSIONS, id)), OpsOf(before) + added, Key(SESSIONS, id))
    ensures NotesInTurn(rewritten, OpsOf(after), id, now) == NotesInTurn(written, OpsOf(before) + added, id, now)
  {
    var v := ViewOf(written[0].rows, id);
    RoomRaises(written, OpsOf(before) + added, id, now);
    RoomRaises(rewritten, OpsOf(after), id, now);
    RequeuedNotes(before, added, after, trace, fits, v, id, now);
  }

  /** A queue and its rewriting raise the same notifications over the same rows. */
  lemma {:induction false} RequeuedNotes(before: seq<PendingBatch>, added: Batches, after: seq<PendingBatch>, trace: seq<Batches>, fits: Op -> bool,
      v: View, id: string, now: real)
    requires Requeued(before, added, after, trace, fits)
    requires Steady(v.session, OpsOf(before) + added, Key(SESSIONS, id))
    ensures Notes(v, OpsOf(after), id, now) == Notes(v, OpsOf(before) + added, id, now)
  {
    var sent := RequeuedPieces(before, added, after, trace, fits);
    assert |trace| > 0 && Rewriting(trace, fits);
    hide Requeued, OpsOf, Rewriting, Steady, Notes, DropEmpty;
    TailNotes(sent, trace, fits, v, id, now);
  }

  lemma {:induction false} RequeuedPieces(before: seq<PendingBatch>, added: Batches, after: seq<PendingBatch>, trace: seq<Batches>, fits: Op -> bool)
    returns (sent: Batches)
    requires Requeued(before, added, after, trace, fits)
    ensures OpsOf(before) + added == sent + trace[0] && OpsOf(after) == sent + DropEmpty(trace[|trace| - 1])
  {
    hide OpsOf, UnsentStart, Rewriting, DropEmpty;
    var n := UnsentStart(before);
    sent := OpsOf(before[..n]);
    Rejoin(before, n);
    Rejoin(after, n);
    OpsOfConcat(before[..n], before[n..]);
    OpsOfConcat(after[..n], after[n..]);
    Assoc(sent, OpsOf(before[n..]), added);
  }

  lemma {:induction false} TailNotes(sent: Batches, trace: seq<Batches>, fits: Op -> bool, v: View, id: string, now: real)
    requires |trace| > 0 && Rewriting(trace, fits) && Steady(v.session, sent + trace[0], Key(SESSIONS, id))
    ensures Notes(v, sent + DropEmpty(trace[|trace| - 1]), id, now) == Notes(v, sent + trace[0], id, now)
  {
    hide Rewriting, Steady, Notes, DropEmpty;
    SteadyConcat(v.session, sent, trace[0], Key(SESSIONS, id));
    NotesConcat(v, sent, trace[0], id, now);
    NotesConcat(v, sent, DropEmpty(trace[|trace| - 1]), id, now);
    RewritingKeepsNotes(trace, fits, ViewAfter(v, sent, id), id, now);
  }
}
