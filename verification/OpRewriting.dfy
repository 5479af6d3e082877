/** `coalesce_ops`: two ops on one row folded into one with exactly their joint effect
(crates/doc/src/registry.rs:301-404). */
module OpRewriting {
  import opened Wrappers
  import opened Hlc
  import opened RegistryCore

  /** No write of `a` outlives `b`: each field again, and later. */
  predicate Shadows(b: Op, a: Op) {
    forall k :: k in Writes(a) ==> k in Writes(b) && ClockFor(b, k) > ClockFor(a, k)
  }

  predicate TakesSecond(a: Op, b: Op, k: string) {
    k in Writes(b) && (k !in Writes(a) || ClockFor(b, k) > ClockFor(a, k))
  }

  /** The op with every write of both, each keeping its own clock. */
  function Merged(a: Op, b: Op, op: OpKind, hlc: Clock): Op {
    var keys := Writes(a).Keys + Writes(b).Keys;
    var clockOf := map k | k in keys :: if TakesSecond(a, b, k) then ClockFor(b, k) else ClockFor(a, k);
    var overrides := map k | k in keys && clockOf[k] != hlc :: clockOf[k];
    Op(a.key, op,
       Some(map k | k in keys :: if TakesSecond(a, b, k) then Writes(b)[k] else Writes(a)[k]),
       hlc,
       if overrides == map[] then None else Some(overrides))
  }

  /** The kind and revival clock of the one op standing for both, if there is one. */
  function JointKind(a: Op, b: Op): Option<(OpKind, Clock)> {
    if a.op == Delete || b.op == Delete then None
    else if b.op == Update then Some((a.op, a.hlc))
    else if a.op == Upsert && (b.hlc <= a.hlc || Shadows(b, a)) then
      Some((Upsert, if b.hlc <= a.hlc then a.hlc else b.hlc))
    else if a.op == Update && Shadows(b, a) then Some((Upsert, b.hlc))
    else None
  }

  /** `fits` is the room's size check on the serialized op. */
  function CoalesceOps(a: Op, b: Op, fits: Op -> bool): Option<Op> {
    if a.key != b.key then None
    else
      match JointKind(a, b)
      case None => None
      case Some((op, hlc)) =>
        var m := Merged(a, b, op, hlc);
        if fits(m) then Some(m) else None
  }

  /** Which write of the merged op each field carries, and with which clock. */
  lemma {:induction false} MergedAt(a: Op, b: Op, op: OpKind, hlc: Clock, k: string)
    ensures var m := Merged(a, b, op, hlc);
      && (k in Writes(m) <==> k in Writes(a) || k in Writes(b))
      && (TakesSecond(a, b, k) ==> Writes(m)[k] == Writes(b)[k] && ClockFor(m, k) == ClockFor(b, k))
      && (k in Writes(m) && !TakesSecond(a, b, k) ==>
           Writes(m)[k] == Writes(a)[k] && ClockFor(m, k) == ClockFor(a, k))
  {
    var keys := Writes(a).Keys + Writes(b).Keys;
    var clockOf := map k | k in keys :: if TakesSecond(a, b, k) then ClockFor(b, k) else ClockFor(a, k);
    var overrides := map k | k in keys && clockOf[k] != hlc :: clockOf[k];
    if k in keys {
      assert k in overrides <==> clockOf[k] != hlc;
    }
  }

  /** On a live row the merged op writes what the two writes leave. */
  lemma {:induction false} MergedWritesLive(row: Row, a: Op, b: Op, op: OpKind, hlc: Clock)
    ensures var m := Merged(a, b, op, hlc);
      && WriteFields(row, m) == WriteFields(WriteFields(row, a), b)
      && (Winners(row, m) == {} <==> Winners(row, a) == {} && Winners(WriteFields(row, a), b) == {})
  {
    var m := Merged(a, b, op, hlc);
    var mid := WriteFields(row, a);
    hide WriteFields, Merged, Winners;
    WriteFieldsAt(mid, b);
    WriteFieldsAt(row, m);
    forall k
      ensures FieldAfter(row, m, k) == FieldAfter(mid, b, k) && ClockAfter(row, m, k) == ClockAfter(mid, b, k)
      ensures Lands(row, m, k) <==> Lands(row, a, k) || Lands(mid, b, k)
    {
      MergedLands(row, a, b, op, hlc, k);
    }
    KeepsKeys(row, m);
    KeepsKeys(row, a);
    KeepsKeys(mid, b);
    SameRow(WriteFields(row, m), WriteFields(mid, b));
    NoneLand(row, m);
    NoneLand(row, a);
    NoneLand(mid, b);
  }

  lemma {:induction false} KeepsKeys(base: Row, op: Op)
    ensures var r := WriteFields(base, op); r == base.(fields := r.fields, clocks := r.clocks)
  {
  }

  lemma {:induction false} NoneLand(base: Row, op: Op)
    ensures Winners(base, op) == {} <==> forall k :: !Lands(base, op, k)
  {
    assert forall k :: Lands(base, op, k) <==> k in Winners(base, op);
  }

  lemma {:induction false} MergedLands(row: Row, a: Op, b: Op, op: OpKind, hlc: Clock, k: string)
    ensures var m, mid := Merged(a, b, op, hlc), WriteFields(row, a);
      && FieldAfter(row, m, k) == FieldAfter(mid, b, k) && ClockAfter(row, m, k) == ClockAfter(mid, b, k)
      && (Lands(row, m, k) <==> Lands(row, a, k) || Lands(mid, b, k))
  {
    WriteFieldsAt(row, a);
    MergedAt(a, b, op, hlc, k);
    hide WriteFields, Merged;
  }

  /** When `b` shadows `a`, the merged op writes on any row exactly what `b` alone writes. */
  lemma {:induction false} MergedWritesShadowed(row: Row, a: Op, b: Op, op: OpKind, hlc: Clock)
    requires Shadows(b, a)
    ensures WriteFields(row, Merged(a, b, op, hlc)) == WriteFields(row, b)
  {
    var m := Merged(a, b, op, hlc);
    WriteFieldsAt(row, b);
    WriteFieldsAt(row, m);
    forall k
      ensures FieldAfter(row, m, k) == FieldAfter(row, b, k) && ClockAfter(row, m, k) == ClockAfter(row, b, k)
    {
      MergedAt(a, b, op, hlc, k);
    }
    SameRow(WriteFields(row, m), WriteFields(row, b));
  }

  /** The blank or live row an upsert or update of `row` writes into. */
  function WriteBase(row: Option<Row>, key: Key): Row {
    match row
    case None => Row(key, 0, false, None, map[], map[])
    case Some(r) => if r.deleted then r.(deleted := false, fields := map[], clocks := map[]) else r
  }

  /** The merged writes are right over the row `base`. */
  predicate WritesRight(base: Row, a: Op, b: Op, m: Op) {
    && WriteFields(base, m) == WriteFields(WriteFields(base, a), b)
    && (Winners(base, m) == {} <==> Winners(base, a) == {} && Winners(WriteFields(base, a), b) == {})
    && (Shadows(b, a) ==> WriteFields(base, m) == WriteFields(base, b))
  }

  predicate ExactOn(row: Option<Row>, a: Op, b: Op, m: Op) {
    var first := ApplyOp(row, a);
    var second := ApplyOp(first.row, b);
    ApplyOp(row, m) == Applied(second.row, first.changed || second.changed)
  }

  /** A live row decides nothing but the writes. */
  lemma {:induction false} ExactLive(r: Row, a: Op, b: Op, m: Op)
    requires !r.deleted && JointKind(a, b) == Some((m.op, m.hlc)) && WritesRight(r, a, b, m)
    ensures ExactOn(Some(r), a, b, m)
  {
    KeepsKeys(r, a);
    hide WriteFields, Winners, Shadows;
  }

  /** A missing or dead row comes to life by whichever of the two may bring it. */
  lemma {:induction false} ExactBirth(row: Option<Row>, a: Op, b: Op, m: Op)
    requires row.Some? ==> row.value.deleted
    requires a.key == b.key == m.key && JointKind(a, b) == Some((m.op, m.hlc)) && WritesRight(WriteBase(row, a.key), a, b, m)
    ensures ExactOn(row, a, b, m)
  {
    KeepsKeys(WriteBase(row, a.key), a);
    hide WriteFields, Winners, Shadows;
  }

  /** The rewrite is exact on every row (missing, live or dead): same row, same verdict on
  whether anything changed. */
  lemma {:induction false} CoalesceExact(row: Option<Row>, a: Op, b: Op, fits: Op -> bool)
    requires CoalesceOps(a, b, fits).Some?
    ensures var m := CoalesceOps(a, b, fits).value;
      var first := ApplyOp(row, a);
      var second := ApplyOp(first.row, b);
      ApplyOp(row, m) == Applied(second.row, first.changed || second.changed)
  {
    var (op, hlc) := JointKind(a, b).value;
    var base := WriteBase(row, a.key);
    MergedWritesLive(base, a, b, op, hlc);
    if Shadows(b, a) {
      MergedWritesShadowed(base, a, b, op, hlc);
    }
    if row.Some? && !row.value.deleted {
      ExactLive(row.value, a, b, Merged(a, b, op, hlc));
    } else {
      ExactBirth(row, a, b, Merged(a, b, op, hlc));
    }
  }
}
