/** Which queued writes may be folded together, read off positions and fields, and what one pass over
the queue leaves (crates/doc/src/registry.rs:301-404, 829-952). */
module FoldRules {
  import opened Wrappers
  import opened Hlc
  import opened RegistryCore
  import opened OpRewriting
  import opened Queue
  import opened TailRewrite

  /** Two writes of one row that one op can stand for, which the room would not find too large: the
  later only updates, or the earlier would bring the row to life wherever the later would, or the
  later writes each of its fields again under a newer clock. */
  ghost predicate Mergeable(a: Op, b: Op, fits: Op -> bool) {
    && a.key == b.key && a.op != Delete && b.op != Delete
    && (|| b.op == Update
        || (a.op == Upsert && b.hlc <= a.hlc)
        || forall k :: k in Writes(a) ==> k in Writes(b) && ClockFor(b, k) > ClockFor(a, k))
    && exists m :: fits(m) && Stands(m, a, b)
  }

  /** The op with every write of both, where both write the newer and at a tie the earlier one's; it
  is of the kind, and under the clock, that decides whether it brings a row to life. */
  ghost predicate Stands(m: Op, a: Op, b: Op) {
    && m.key == a.key && m.writes.Some?
    && m.op == (if a.op == Upsert || b.op == Upsert then Upsert else Update)
    && m.hlc == (if b.op == Update || (a.op == Upsert && b.hlc <= a.hlc) then a.hlc else b.hlc)
    && (forall k :: k in Writes(m) <==> k in Writes(a) || k in Writes(b))
    && (forall k :: k in Writes(m) ==>
         if k in Writes(b) && (k in Writes(a) ==> ClockFor(b, k) > ClockFor(a, k))
         then Writes(m)[k] == Writes(b)[k] && ClockFor(m, k) == ClockFor(b, k)
         else Writes(m)[k] == Writes(a)[k] && ClockFor(m, k) == ClockFor(a, k))
    && (m.clocks.Some? ==> m.clocks.value != map[] && forall k :: k in m.clocks.value ==> k in Writes(m) && m.clocks.value[k] != m.hlc)
  }

  /** There is only one such op. */
  lemma {:induction false} StandsAlone(m: Op, n: Op, a: Op, b: Op)
    requires Stands(m, a, b) && Stands(n, a, b)
    ensures m == n
  {
    assert Writes(m).Keys == Writes(n).Keys;
    assert Writes(m) == Writes(n);
    forall k | k in Writes(m) ensures ClockFor(m, k) == ClockFor(n, k) {
    }
    if m.clocks.Some? {
      var k :| k in m.clocks.value;
      assert ClockFor(n, k) != n.hlc;
    }
    if n.clocks.Some? {
      var k :| k in n.clocks.value;
      assert ClockFor(m, k) != m.hlc;
    }
    if m.clocks.Some? {
      var x, y := m.clocks.value, n.clocks.value;
      forall k ensures k in x <==> k in y {
        assert k in x ==> k in Writes(m) && ClockFor(m, k) == x[k] != m.hlc;
        assert k in y ==> k in Writes(n) && ClockFor(n, k) == y[k] != n.hlc;
      }
      assert x.Keys == y.Keys;
      assert forall k :: k in x ==> x[k] == ClockFor(m, k) == ClockFor(n, k) == y[k];
      assert x == y;
    }
  }

  /** `coalesce_ops` folds exactly these pairs, into that op. */
  lemma {:induction false} CoalesceIff(a: Op, b: Op, fits: Op -> bool)
    ensures CoalesceOps(a, b, fits).Some? <==> Mergeable(a, b, fits)
    ensures CoalesceOps(a, b, fits).Some? ==> fits(CoalesceOps(a, b, fits).value) && Stands(CoalesceOps(a, b, fits).value, a, b)
  {
    if a.key == b.key && JointKind(a, b).Some? {
      var (op, hlc) := JointKind(a, b).value;
      var m := Merged(a, b, op, hlc);
      MergedStands(a, b, op, hlc);
      hide Stands, Merged;
      if Mergeable(a, b, fits) {
        var n :| fits(n) && Stands(n, a, b);
        StandsAlone(m, n, a, b);
      }
    }
  }

  lemma {:induction false} MergedStands(a: Op, b: Op, op: OpKind, hlc: Clock)
    requires a.key == b.key && JointKind(a, b) == Some((op, hlc))
    ensures Stands(Merged(a, b, op, hlc), a, b)
  {
    var m := Merged(a, b, op, hlc);
    forall k ensures k in Writes(m) <==> k in Writes(a) || k in Writes(b) {
    }
    forall k | k in Writes(m)
      ensures if k in Writes(b) && (k in Writes(a) ==> ClockFor(b, k) > ClockFor(a, k))
         then Writes(m)[k] == Writes(b)[k] && ClockFor(m, k) == ClockFor(b, k)
         else Writes(m)[k] == Writes(a)[k] && ClockFor(m, k) == ClockFor(a, k)
    {
      MergedAt(a, b, op, hlc, k);
    }
  }

  // ── moving one write behind another ───────────────────────────────────────

  ghost predicate At(q: Batches, x: int, y: int, key: Key) {
    0 <= x < |q| && 0 <= y < |q[x]| && q[x][y].key == key
  }

  /** No op on the row strictly between the two batches. */
  ghost predicate Clear(q: Batches, i: nat, j: nat, key: Key) {
    forall x, y :: At(q, x, y, key) ==> x <= i || j <= x
  }

  /** A chat write of a title, an archived flag or a parent, and any that is not an update. */
  ghost predicate Labels(op: Op) {
    op.op != Update || exists field :: field in Writes(op) && (field == "title" || field == "archived" || field == "parentChatId")
  }

  ghost predicate SameStatus(a: Op, b: Op) {
    && (if "status" in Writes(a) then "status" in Writes(b) && Writes(a)["status"] == Writes(b)["status"] else "status" !in Writes(b))
    && (if "lastCompletedTurn" in Writes(a)
        then "lastCompletedTurn" in Writes(b) && Writes(a)["lastCompletedTurn"] == Writes(b)["lastCompletedTurn"]
        else "lastCompletedTurn" !in Writes(b))
  }

  /** (x, y) is the last op on the row before batch `i`. */
  ghost predicate LatestBefore(q: Batches, i: nat, key: Key, x: int, y: int) {
    && At(q, x, y, key) && x < i
    && forall x', y' :: At(q, x', y', key) && x' < i ==> x' < x || (x' == x && y' <= y)
  }

  /** The write in batch `i` may be folded into the one in batch `j`: both are alone in their batches,
  nothing on their row is between; a session write only within a run of like status that a write
  before it heads, and not past a relabelling of its chat; a relabelling not past its session. */
  ghost predicate Permitted(q: Batches, i: nat, j: nat, fits: Op -> bool) {
    && i < j < |q| && |q[i]| == 1 && |q[j]| == 1
    && var a, b := q[i][0], q[j][0];
       && Mergeable(a, b, fits) && Clear(q, i, j, a.key)
       && (a.key.kind == "sessions" ==>
            && SameStatus(a, b)
            && (exists x, y :: LatestBefore(q, i, a.key, x, y) && q[x][y].op != Delete && SameStatus(q[x][y], a))
            && forall x, y :: At(q, x, y, Key("chats", a.key.id)) && i < x < j ==> !Labels(q[x][y]))
       && (a.key.kind == "chats" && Labels(a) ==> Clear(q, i, j, Key("sessions", a.key.id)))
  }

  lemma {:induction false} ClearIff(q: Batches, i: nat, j: nat, key: Key)
    requires i < j < |q|
    ensures Clear(q, i, j, key) <==> Untouched(q[i + 1..j], key)
  {
    var mid := q[i + 1..j];
    if Clear(q, i, j, key) {
      forall k | 0 <= k < |mid| ensures !Mentions(mid[k], key) {
        forall y | 0 <= y < |mid[k]| ensures mid[k][y].key != key {
          assert mid[k] == q[i + 1 + k];
          assert !At(q, i + 1 + k, y, key);
        }
      }
    } else {
      var x, y :| At(q, x, y, key) && i < x < j;
      assert mid[x - i - 1] == q[x];
    }
  }

  lemma {:induction false} LabelsIff(op: Op)
    ensures Labels(op) <==> Gates(op)
  {
  }

  lemma {:induction false} SameStatusIff(a: Op, b: Op)
    ensures SameStatus(a, b) <==> Signal(a) == Signal(b)
  {
  }

  lemma {:induction false} NoGateIff(q: Batches, i: nat, j: nat, id: string)
    requires i < j < |q|
    ensures NoGate(q[i + 1..j], id) <==> forall x, y :: At(q, x, y, Key("chats", id)) && i < x < j ==> !Labels(q[x][y])
  {
    var mid := q[i + 1..j];
    if NoGate(mid, id) {
      forall x, y | At(q, x, y, Key("chats", id)) && i < x < j ensures !Labels(q[x][y]) {
        assert mid[x - i - 1] == q[x];
        LabelsIff(mid[x - i - 1][y]);
      }
    }
    if forall x, y :: At(q, x, y, Key("chats", id)) && i < x < j ==> !Labels(q[x][y]) {
      forall k, o | 0 <= k < |mid| && 0 <= o < |mid[k]| && mid[k][o].key == Key(CHATS, id) ensures !Gates(mid[k][o]) {
        assert mid[k] == q[i + 1 + k];
        assert At(q, i + 1 + k, o, Key("chats", id));
        LabelsIff(mid[k][o]);
      }
    }
  }

  /** The last op on the row, if there is one. */
  lemma {:induction false} LatestIs(q: Batches, i: nat, key: Key, x: int, y: int)
    requires i <= |q| && LatestBefore(q, i, key, x, y)
    ensures LastOp(q[..i], key) == Some(q[x][y])
  {
    var front := q[..i];
    assert front[x] == q[x];
    forall z | y < z < |front[x]| ensures front[x][z].key != key {
      assert !At(q, x, z, key);
    }
    var rest := front[x + 1..];
    forall k | 0 <= k < |rest| ensures !Mentions(rest[k], key) {
      forall z | 0 <= z < |rest[k]| ensures rest[k][z].key != key {
        assert rest[k] == q[x + 1 + k];
        assert !At(q, x + 1 + k, z, key);
      }
    }
    LastOpIs(front, key, x, y);
  }

  lemma {:induction false} LatestInBatch(ops: seq<Op>, key: Key) returns (y: nat)
    requires Mentions(ops, key)
    ensures y < |ops| && ops[y].key == key && forall z :: y < z < |ops| ==> ops[z].key != key
    decreases |ops|
  {
    var n := |ops| - 1;
    if ops[n].key == key {
      y := n;
    } else {
      var k :| 0 <= k < |ops| && ops[k].key == key;
      assert ops[..n][k].key == key;
      y := LatestInBatch(ops[..n], key);
      assert forall z :: y < z < n ==> ops[..n][z] == ops[z];
    }
  }

  lemma {:induction false} LatestExists(q: Batches, i: nat, key: Key) returns (x: nat, y: nat)
    requires i <= |q| && LastOp(q[..i], key).Some?
    ensures LatestBefore(q, i, key, x, y)
    decreases i
  {
    assert q[..i][..i - 1] == q[..i - 1] && q[..i][i - 1] == q[i - 1];
    if Mentions(q[i - 1], key) {
      x := i - 1;
      y := LatestInBatch(q[i - 1], key);
    } else {
      LastInNone(q[i - 1], key);
      x, y := LatestExists(q, i - 1, key);
      assert forall x', y' :: At(q, x', y', key) && x' < i ==> x' < i - 1;
    }
  }

  lemma {:induction false} SessionIff(q: Batches, i: nat, j: nat)
    requires i < j < |q| && |q[i]| == 1 && |q[j]| == 1
    ensures var a, b := q[i][0], q[j][0];
      SessionMayMove(q, i, j) <==>
        && SameStatus(a, b)
        && (exists x, y :: LatestBefore(q, i, a.key, x, y) && q[x][y].op != Delete && SameStatus(q[x][y], a))
        && forall x, y :: At(q, x, y, Key("chats", a.key.id)) && i < x < j ==> !Labels(q[x][y])
  {
    var a, b := q[i][0], q[j][0];
    SameStatusIff(a, b);
    NoGateIff(q, i, j, a.key.id);
    var head := LastOp(q[..i], a.key);
    if head.Some? {
      var x, y := LatestExists(q, i, a.key);
      LatestIs(q, i, a.key, x, y);
      SameStatusIff(q[x][y], a);
    }
    forall x, y | LatestBefore(q, i, a.key, x, y) ensures head == Some(q[x][y]) && (SameStatus(q[x][y], a) <==> Signal(q[x][y]) == Signal(a)) {
      LatestIs(q, i, a.key, x, y);
      SameStatusIff(q[x][y], a);
    }
    hide At, LatestBefore, SameStatus, Signal, NoGate, Labels, LastOp;
  }

  /** The steps a rewriting is made of are exactly these. */
  lemma {:induction false} PermittedIff(q: Batches, i: nat, j: nat, fits: Op -> bool)
    ensures Foldable(q, i, j, fits) && MayMove(q, i, j) <==> Permitted(q, i, j, fits)
  {
    if i < j < |q| && |q[i]| == 1 && |q[j]| == 1 {
      var a := q[i][0];
      CoalesceIff(a, q[j][0], fits);
      ClearIff(q, i, j, a.key);
      ClearIff(q, i, j, Key("sessions", a.key.id));
      LabelsIff(a);
      SessionIff(q, i, j);
      hide Mergeable, Clear, Labels, SessionMayMove, Untouched, CoalesceOps;
    }
  }

  /** What the pass leaves: a fold that is still permitted is into a write that already took one, or
  of a relabelling. */
  lemma {:induction false} NothingLeft(trace: seq<Batches>, gained: seq<bool>, fits: Op -> bool, i: nat, j: nat)
    requires Collapsed(trace, gained, fits) && j < |gained|
    ensures Permitted(trace[|trace| - 1], i, j, fits) ==>
      gained[j] || (trace[|trace| - 1][i][0].key.kind == "chats" && Labels(trace[|trace| - 1][i][0]))
  {
    PermittedIff(trace[|trace| - 1], i, j, fits);
    if Permitted(trace[|trace| - 1], i, j, fits) {
      LabelsIff(trace[|trace| - 1][i][0]);
    }
    hide Permitted, Labels, Earned;
  }
}
