/** The merge at the heart of the workspace registry: rows, ops, `apply_op` and the client's
op rewriting (crates/doc/src/registry.rs, mirrored by edge/src/registry-core.ts). */
module RegistryCore {
  import opened Wrappers
  import opened Hlc

  /** A JSON value; objects and arrays are opaque. */
  datatype Value = Null | Bool(b: bool) | Num(n: real) | Str(s: string) | Compound(json: string)

  datatype Key = Key(kind: string, id: string)

  datatype Row = Row(
    key: Key, seqNo: nat, deleted: bool, delHlc: Option<Clock>,
    fields: map<string, Value>, clocks: map<string, Clock>)

  datatype OpKind = Upsert | Update | Delete

  /** `Null` written to a field deletes it; `clocks` overrides `hlc` per field. */
  datatype Op = Op(
    key: Key, op: OpKind, writes: Option<map<string, Value>>, hlc: Clock,
    clocks: Option<map<string, Clock>>)

  /** The row after an op (`None` only for an update of a missing row) and whether it changed. */
  datatype Applied = Applied(row: Option<Row>, changed: bool)

  /** The clock of a row or op that never got one. */
  const SEED_CLOCK: Clock := Position(EncodeHlc(0, 0, "seed"))

  predicate Newer(a: Clock, b: Option<Clock>) {
    b == None || a > b.value
  }

  function Lookup<T>(m: map<string, T>, k: string): Option<T> {
    if k in m then Some(m[k]) else None
  }

  function Writes(op: Op): map<string, Value> {
    if op.writes.Some? then op.writes.value else map[]
  }

  function ClockFor(op: Op, field: string): Clock {
    if op.clocks.Some? && field in op.clocks.value then op.clocks.value[field] else op.hlc
  }

  function Tombstone(key: Key, hlc: Clock): Row {
    Row(key, 0, true, Some(hlc), map[], map[])
  }

  // ── the newest clock of a row ─────────────────────────────────────────────

  function AllClocks(row: Row): set<Clock> {
    row.clocks.Values + (if row.delHlc.Some? then {row.delHlc.value} else {})
  }

  lemma {:induction false} NewestField(clocks: map<string, Clock>, keys: set<string>)
    requires keys != {} && keys <= clocks.Keys
    ensures exists k :: k in keys && forall j :: j in keys ==> clocks[j] <= clocks[k]
  {
    var x :| x in keys;
    var rest := keys - {x};
    if rest == {} {
      assert keys == {x};
    } else {
      NewestField(clocks, rest);
      var y :| y in rest && forall j :: j in rest ==> clocks[j] <= clocks[y];
      var k := if clocks[x] < clocks[y] then y else x;
      assert forall j :: j in keys ==> j == x || j in rest;
      assert k in keys && forall j :: j in keys ==> clocks[j] <= clocks[k];
    }
  }

  lemma {:induction false} NewestExists(row: Row)
    requires row.delHlc.Some? || row.clocks != map[]
    ensures exists c :: c in AllClocks(row) && forall d :: d in AllClocks(row) ==> d <= c
  {
    if row.clocks == map[] {
      assert AllClocks(row) == {row.delHlc.value};
    } else {
      NewestField(row.clocks, row.clocks.Keys);
      var k :| k in row.clocks && forall j :: j in row.clocks ==> row.clocks[j] <= row.clocks[k];
      NewestAmong(row, if row.delHlc.Some? && row.delHlc.value > row.clocks[k] then row.delHlc.value else row.clocks[k]);
    }
  }

  lemma {:induction false} NewestAmong(row: Row, c: Clock)
    requires row.delHlc == Some(c) || exists k :: k in row.clocks && row.clocks[k] == c
    requires row.delHlc.Some? ==> row.delHlc.value <= c
    requires forall k :: k in row.clocks ==> row.clocks[k] <= c
    ensures c in AllClocks(row) && forall d :: d in AllClocks(row) ==> d <= c
  {
    forall d | d in AllClocks(row) ensures d <= c {
      if d in row.clocks.Values {
        assert exists k :: k in row.clocks && row.clocks[k] == d;
      }
    }
  }

  function MaxClock(row: Row): (m: Option<Clock>)
    ensures m == None <==> row.delHlc == None && row.clocks == map[]
    ensures m.Some? ==> m.value in AllClocks(row) && forall d :: d in AllClocks(row) ==> d <= m.value
  {
    if row.delHlc == None && row.clocks == map[] then None
    else
      NewestExists(row);
      var c :| c in AllClocks(row) && forall d :: d in AllClocks(row) ==> d <= c;
      Some(c)
  }

  /** The loop both languages run over the field clocks finds exactly that clock. */
  method FindMaxClock(row: Row) returns (max: Option<Clock>)
    ensures max == MaxClock(row)
  {
    max := row.delHlc;
    var rest := row.clocks.Keys;
    while rest != {}
      invariant rest <= row.clocks.Keys
      invariant max.Some? ==> max.value in AllClocks(row)
      invariant row.delHlc.Some? ==> max.Some? && row.delHlc.value <= max.value
      invariant forall k :: k in row.clocks && k !in rest ==> max.Some? && row.clocks[k] <= max.value
    {
      var k :| k in rest;
      if Newer(row.clocks[k], max) {
        max := Some(row.clocks[k]);
      }
      rest := rest - {k};
    }
  }

  // ── apply_op ──────────────────────────────────────────────────────────────

  predicate Lands(base: Row, op: Op, field: string) {
    field in Writes(op) && Newer(ClockFor(op, field), Lookup(base.clocks, field))
  }

  function Winners(base: Row, op: Op): set<string> {
    set k | k in Writes(op) && Lands(base, op, k)
  }

  function WriteFields(base: Row, op: Op): Row {
    var won := Winners(base, op);
    base.(
      fields := map k | k in base.fields.Keys + won && (k in won ==> Writes(op)[k] != Null) ::
        if k in won then Writes(op)[k] else base.fields[k],
      clocks := map k | k in base.clocks.Keys + won ::
        if k in won then ClockFor(op, k) else base.clocks[k])
  }

  /** The delete's comparison base: the tombstone clock of a dead row, every clock of a live one. */
  predicate DeleteBeats(row: Row, hlc: Clock) {
    Newer(hlc, if row.deleted then row.delHlc else MaxClock(row))
  }

  function ApplyOp(row: Option<Row>, op: Op): Applied {
    if op.op == Delete then
      match row
      case None => Applied(Some(Tombstone(op.key, op.hlc)), true)
      case Some(r) =>
        if DeleteBeats(r, op.hlc)
        then Applied(Some(r.(deleted := true, delHlc := Some(op.hlc), fields := map[], clocks := map[])), true)
        else Applied(row, false)
    else
      match row
      case None =>
        if op.op == Update then Applied(None, false)
        else Applied(Some(WriteFields(Row(op.key, 0, false, None, map[], map[]), op)), true)
      case Some(r) =>
        if r.deleted then
          if op.op == Update || !Newer(op.hlc, r.delHlc) then Applied(row, false)
          // Nothing of the dead row comes back but its tombstone's clock.
          else Applied(Some(WriteFields(r.(deleted := false, fields := map[], clocks := map[]), op)), true)
        else Applied(Some(WriteFields(r, op)), Winners(r, op) != {})
  }

  /** `apply_op` as the source runs it: the field loop mutates the base row. */
  method RunApplyOp(row: Option<Row>, op: Op) returns (next: Option<Row>, changed: bool)
    ensures Applied(next, changed) == ApplyOp(row, op)
  {
    if op.op == Delete {
      if row == None {
        return Some(Tombstone(op.key, op.hlc)), true;
      }
      var last := row.value.delHlc;
      if !row.value.deleted {
        last := FindMaxClock(row.value);
      }
      if Newer(op.hlc, last) {
        return Some(row.value.(deleted := true, delHlc := Some(op.hlc), fields := map[], clocks := map[])), true;
      }
      return row, false;
    }
    var base;
    if row == None {
      if op.op == Update {
        return None, false;
      }
      base := Row(op.key, 0, false, None, map[], map[]);
    } else if row.value.deleted {
      if op.op == Update || !Newer(op.hlc, row.value.delHlc) {
        return row, false;
      }
      base := row.value.(deleted := false, fields := map[], clocks := map[]);
    } else {
      base := row.value;
    }
    changed := row == None || row.value.deleted;
    ghost var start := base;
    ghost var created := changed;
    var rest := Writes(op).Keys;
    while rest != {}
      invariant rest <= Writes(op).Keys
      invariant base == start.(fields := base.fields, clocks := base.clocks)
      invariant forall k :: k !in Winners(start, op) - rest ==>
        Lookup(base.fields, k) == Lookup(start.fields, k) && Lookup(base.clocks, k) == Lookup(start.clocks, k)
      invariant forall k :: k in Winners(start, op) - rest ==>
        Lookup(base.fields, k) == (if Writes(op)[k] == Null then None else Some(Writes(op)[k])) &&
        Lookup(base.clocks, k) == Some(ClockFor(op, k))
      invariant changed == (created || Winners(start, op) - rest != {})
    {
      var k :| k in rest;
      var clock := ClockFor(op, k);
      assert Lookup(base.clocks, k) == Lookup(start.clocks, k);
      if Newer(clock, Lookup(base.clocks, k)) {
        var value := Writes(op)[k];
        base := base.(
          fields := if value == Null then base.fields - {k} else base.fields[k := value],
          clocks := base.clocks[k := clock]);
        changed := true;
        assert k in Winners(start, op);
      }
      rest := rest - {k};
    }
    assert Winners(start, op) - rest == Winners(start, op);
    WriteFieldsAt(start, op);
    SameRow(base, WriteFields(start, op));
    next := Some(base);
  }

  function FieldAfter(base: Row, op: Op, k: string): Option<Value> {
    if !Lands(base, op, k) then Lookup(base.fields, k)
    else if Writes(op)[k] == Null then None
    else Some(Writes(op)[k])
  }

  function ClockAfter(base: Row, op: Op, k: string): Option<Clock> {
    if Lands(base, op, k) then Some(ClockFor(op, k)) else Lookup(base.clocks, k)
  }

  /** What each field and clock of the row is after the writes that land. */
  lemma {:induction false} WriteFieldsAt(base: Row, op: Op)
    ensures forall k :: Lookup(WriteFields(base, op).fields, k) == FieldAfter(base, op, k)
    ensures forall k :: Lookup(WriteFields(base, op).clocks, k) == ClockAfter(base, op, k)
  {
  }

  /** Maps with the same lookups are the same map, so rows agreeing per field are the same row. */
  lemma {:induction false} SameRow(r: Row, s: Row)
    requires r == s.(fields := r.fields, clocks := r.clocks)
    requires forall k :: Lookup(r.fields, k) == Lookup(s.fields, k)
    requires forall k :: Lookup(r.clocks, k) == Lookup(s.clocks, k)
    ensures r == s
  {
    assert forall k :: k in r.fields ==> Lookup(r.fields, k) == Some(r.fields[k]);
    assert forall k :: k in s.fields ==> Lookup(s.fields, k) == Some(s.fields[k]);
    assert forall k :: k in r.clocks ==> Lookup(r.clocks, k) == Some(r.clocks[k]);
    assert forall k :: k in s.clocks ==> Lookup(s.clocks, k) == Some(s.clocks[k]);
    assert r.fields == s.fields;
    assert r.clocks == s.clocks;
  }
}
