/**
 * Carrying out a planned backfill of rules (src/modules/rules/migration.ts:213-236): each operation updates the one row
 * that is still as the preflight saw it, and the whole transaction is undone unless every operation found its row. The
 * preflight judges ids by their text; the update's filter and the unique indexes go by their stored type.
 */
module RuleBackfill {
  import opened Prelude
  import opened ObjectIds
  import opened RulePreflight

  /** What the database guarantees of `_id`; two ids of different types may read alike. */
  ghost predicate DistinctIds(rows: seq<Row>) {
    forall i, j :: 0 <= i < j < |rows| ==> rows[i].id != rows[j].id
  }

  predicate IsOid(c: Cell<Ref>) {
    c.Value? && c.v.Oid?
  }

  /** None of the version fields is there, not even as null: what the update's filter asks for. */
  predicate Unset(r: Row) {
    r.group.Absent? && r.version.Absent? && r.isCurrent.Absent?
  }

  /** The filter turns the planned texts into object ids, which equal no stored text. */
  predicate IsOidFor(c: Cell<Ref>, text: string) {
    IsOid(c) && c.v.hex == StoredId(text)
  }

  predicate Selects(op: Operation, r: Row) {
    IsOidFor(r.id, op.id) && IsOidFor(r.tenantId, op.tenantId) && r.key == op.key && r.status == op.status && Unset(r)
  }

  /** The id written for a text; the preflight lets no text through that is none. */
  function RefFor(text: string): Ref {
    if Castable(text) then Oid(ToObjectId(text)) else Other("string", text)
  }

  function Filled(r: Row, op: Operation): Row {
    r.(group := Value(RefFor(op.group)), version := Value(Whole(1)), isCurrent := Value(Bool(op.isCurrent)))
  }

  /** The first row an operation selects. */
  function FirstSelected(op: Operation, rows: seq<Row>): (i: Option<nat>)
    ensures i.Some? ==> i.value < |rows| && Selects(op, rows[i.value])
  {
    if rows == [] then None
    else
      var before := FirstSelected(op, rows[..|rows| - 1]);
      if before.Some? then before
      else if Selects(op, rows[|rows| - 1]) then Some(|rows| - 1)
      else None
  }

  lemma {:induction false} FirstSelectedFails(op: Operation, rows: seq<Row>)
    ensures FirstSelected(op, rows).None? <==> forall i :: 0 <= i < |rows| ==> !Selects(op, rows[i])
  {
    if rows != [] {
      FirstSelectedFails(op, rows[..|rows| - 1]);
    }
  }

  datatype Written = Written(rows: seq<Row>, matched: nat)

  function Write(w: Written, op: Operation): (r: Written)
    ensures |r.rows| == |w.rows|
  {
    match FirstSelected(op, w.rows)
    case None => w
    case Some(i) => Written(w.rows[i := Filled(w.rows[i], op)], w.matched + 1)
  }

  function WriteAll(rows: seq<Row>, ops: seq<Operation>): (r: Written)
    ensures |r.rows| == |rows|
  {
    if ops == [] then Written(rows, 0) else Write(WriteAll(rows, ops[..|ops| - 1]), ops[|ops| - 1])
  }

  lemma WriteAllAppend(rows: seq<Row>, ops: seq<Operation>, op: Operation)
    ensures WriteAll(rows, ops + [op]) == Write(WriteAll(rows, ops), op)
  {}

  // ----- which rows are filled

  /** A row some operation can select: nothing set, and both references are object ids. */
  predicate Fillable(r: Row) {
    Unset(r) && IsOid(r.id) && IsOid(r.tenantId)
  }

  /** A row planned for backfill that no operation selects: it holds an explicit null, or an id that is no object id. */
  predicate Stuck(r: Row) {
    Legacy(r) && (!Unset(r) || !IsOid(r.id) || !IsOid(r.tenantId))
  }

  ghost predicate NoneStuck(rows: seq<Row>) {
    forall i :: 0 <= i < |rows| ==> !Stuck(rows[i])
  }

  /** What the backfill makes of a row. */
  function Carry(r: Row): Row {
    if Fillable(r) then Filled(r, OperationFor(r)) else r
  }

  function CarryAll(rows: seq<Row>): (t: seq<Row>)
    ensures |t| == |rows|
  {
    seq(|rows|, i requires 0 <= i < |rows| => Carry(rows[i]))
  }

  function FillableAmong(rows: seq<Row>): set<nat> {
    set i: nat | i < |rows| && Fillable(rows[i])
  }

  function Changed(rows: seq<Row>, t: seq<Row>): set<nat>
    requires |t| == |rows|
  {
    set i: nat | i < |rows| && t[i] != rows[i]
  }

  /** Each row of `t` is as it was or filled, the first `n` are done, and `matched` counts the filled ones. */
  ghost predicate CarriedUpTo(rows: seq<Row>, n: nat, w: Written)
    requires n <= |rows|
  {
    && |w.rows| == |rows|
    && (forall i :: 0 <= i < |rows| ==> w.rows[i] == rows[i] || w.rows[i] == Carry(rows[i]))
    && (forall i :: 0 <= i < n ==> w.rows[i] == Carry(rows[i]))
    && w.matched == |Changed(rows, w.rows)|
  }

  /** Whichever row an operation of the plan selects, it writes what that row's own operation would write. */
  lemma SelectedIsFillable(op: Operation, planned: Row, r: Row)
    requires op == OperationFor(planned) && RowFine(planned) && Selects(op, r)
    ensures Fillable(r) && Filled(r, op) == Carry(r) != r
  {}

  lemma FilledIsDone(op: Operation, r: Row)
    requires Fillable(r)
    ensures !Selects(op, Carry(r))
  {}

  lemma OwnOperationSelects(r: Row)
    requires Fillable(r)
    ensures Selects(OperationFor(r), r)
  {}

  lemma OneRowPerOid(rows: seq<Row>, t: seq<Row>, op: Operation, i: nat, j: nat)
    requires DistinctIds(rows) && |t| == |rows| && i < |rows| && j < |rows|
    requires t[i].id == rows[i].id && t[j].id == rows[j].id
    requires Selects(op, t[i]) && Selects(op, t[j])
    ensures i == j
  {
    assert t[i].id == t[j].id;
  }

  /** One more row filled, with its own data. */
  lemma FillOne(rows: seq<Row>, n: nat, w: Written, i: nat)
    requires n <= |rows| && CarriedUpTo(rows, n, w) && i < |rows| && w.rows[i] == rows[i] && Carry(rows[i]) != rows[i]
    ensures CarriedUpTo(rows, n, Written(w.rows[i := Carry(rows[i])], w.matched + 1))
  {
    var t := w.rows[i := Carry(rows[i])];
    assert Changed(rows, t) == Changed(rows, w.rows) + {i};
  }

  lemma SelectedIsUntouched(op: Operation, planned: Row, r: Row, now: Row)
    requires op == OperationFor(planned) && RowFine(planned) && Selects(op, now) && (now == r || now == Carry(r))
    ensures now == r && Carry(r) != r && Filled(now, op) == Carry(r)
  {
    if Fillable(r) {
      FilledIsDone(op, r);
    }
    SelectedIsFillable(op, planned, r);
  }

  lemma OperationStep(rows: seq<Row>, n: nat, w: Written)
    requires DistinctIds(rows) && n < |rows| && CarriedUpTo(rows, n, w) && RowFine(rows[n]) && Legacy(rows[n])
    ensures CarriedUpTo(rows, n + 1, Write(w, OperationFor(rows[n])))
  {
    var op := OperationFor(rows[n]);
    var found := FirstSelected(op, w.rows);
    if found.Some? {
      SelectedIsUntouched(op, rows[n], rows[found.value], w.rows[found.value]);
      FillOne(rows, n, w, found.value);
    }
    if Fillable(rows[n]) && w.rows[n] == rows[n] {
      OwnOperationSelects(rows[n]);
      FirstSelectedFails(op, w.rows);
      OneRowPerOid(rows, w.rows, op, n, found.value);
    }
  }

  lemma SkipStep(rows: seq<Row>, n: nat, w: Written)
    requires n < |rows| && CarriedUpTo(rows, n, w) && !Legacy(rows[n])
    ensures CarriedUpTo(rows, n + 1, w)
  {}

  lemma OperationsStep(rows: seq<Row>, n: nat)
    requires n < |rows|
    ensures Operations(rows[..n + 1]) == Operations(rows[..n]) + if Legacy(rows[n]) then [OperationFor(rows[n])] else []
  {
    assert rows[..n + 1][..n] == rows[..n];
  }

  lemma {:induction false} WritesCarry(rows: seq<Row>, n: nat)
    requires DistinctIds(rows) && n <= |rows| && forall i :: 0 <= i < |rows| ==> RowFine(rows[i])
    ensures CarriedUpTo(rows, n, WriteAll(rows, Operations(rows[..n])))
  {
    if n == 0 {
      assert Changed(rows, rows) == {};
    } else {
      WritesCarry(rows, n - 1);
      OperationsStep(rows, n - 1);
      var ops := Operations(rows[..n - 1]);
      if Legacy(rows[n - 1]) {
        WriteAllAppend(rows, ops, OperationFor(rows[n - 1]));
        OperationStep(rows, n - 1, WriteAll(rows, ops));
      } else {
        assert ops + [] == ops;
        SkipStep(rows, n - 1, WriteAll(rows, ops));
      }
    }
  }

  /** Writing the planned operations fills exactly the fillable rows, each with its own data, and counts them. */
  lemma BackfillFills(rows: seq<Row>)
    requires DistinctIds(rows) && forall i :: 0 <= i < |rows| ==> RowFine(rows[i])
    ensures WriteAll(rows, Operations(rows)) == Written(CarryAll(rows), |FillableAmong(rows)|)
  {
    WritesCarry(rows, |rows|);
    assert rows[..|rows|] == rows;
    AllCarried(rows, WriteAll(rows, Operations(rows)));
  }

  lemma FillingChanges(r: Row)
    ensures Carry(r) != r <==> Fillable(r)
  {}

  lemma AllCarried(rows: seq<Row>, w: Written)
    requires CarriedUpTo(rows, |rows|, w)
    ensures w == Written(CarryAll(rows), |FillableAmong(rows)|)
  {
    assert w.rows == CarryAll(rows);
    forall i | 0 <= i < |rows| ensures i in Changed(rows, w.rows) <==> i in FillableAmong(rows) {
      FillingChanges(rows[i]);
    }
    assert Changed(rows, w.rows) == FillableAmong(rows);
  }

  /** Every operation finds a row exactly when no planned row is stuck. */
  lemma {:induction false} AllMatchedIff(rows: seq<Row>)
    ensures |FillableAmong(rows)| <= |Operations(rows)|
    ensures |FillableAmong(rows)| == |Operations(rows)| <==> NoneStuck(rows)
  {
    if rows == [] {
      assert FillableAmong(rows) == {};
    } else {
      var n := |rows| - 1;
      var before := rows[..n];
      AllMatchedIff(before);
      FillableStep(rows, n);
      assert NoneStuck(rows) <==> NoneStuck(before) && !Stuck(rows[n]);
      assert Legacy(rows[n]) <==> Fillable(rows[n]) || Stuck(rows[n]);
    }
  }

  lemma FillableStep(rows: seq<Row>, n: nat)
    requires n + 1 == |rows|
    ensures |FillableAmong(rows)| == |FillableAmong(rows[..n])| + if Fillable(rows[n]) then 1 else 0
  {
    assert FillableAmong(rows) == FillableAmong(rows[..n]) + if Fillable(rows[n]) then {n} else {};
  }

  /** A legacy rule whose `_id` is stored as text. */
  function TextRule(id: ObjectId, tenant: ObjectId): Row {
    Row(Value(Other("string", id)), Value(Oid(tenant)), "rule", "draft", Absent, Absent, Absent)
  }

  lemma TextRuleIsClean(id: ObjectId, tenant: ObjectId)
    ensures Clean([TextRule(id, tenant)])
  {
    var rows := [TextRule(id, tenant)];
    assert STATUSES[0] == "draft";
    var p := ProjectAll(rows);
    assert RowFine(rows[0]) && FieldsFine(p[0]) && OneIn(p[0], InGroup(p[0].tenantId, p[0].group));
  }

  /** It is clean, without a null anywhere, and its operation finds nothing. */
  lemma TextIdIsNeverFound(id: ObjectId, tenant: ObjectId)
    ensures var rows := [TextRule(id, tenant)];
            Clean(rows) && Unset(rows[0]) && |Operations(rows)| == 1 && WriteAll(rows, Operations(rows)).matched == 0
  {
    var rows := [TextRule(id, tenant)];
    TextRuleIsClean(id, tenant);
    BackfillFills(rows);
    assert FillableAmong(rows) == {};
    assert rows[..0] == [] && Operations(rows) == [] + [OperationFor(rows[0])];
  }

  // ----- the unique indexes

  /** What a unique index compares: stored values, where a missing field counts as null. */
  datatype IndexKey =
    | OneKey(tenantId: Cell<Ref>, key: string)
    | CurrentKey(tenantId: Cell<Ref>, key: string)
    | NumberKey(tenantId: Cell<Ref>, group: Cell<Ref>, version: Cell<Number>)

  function NullIfAbsent<T>(c: Cell<T>): Cell<T> {
    if c.Absent? then Null else c
  }

  function KeyOfOne(r: Row): Option<IndexKey> {
    if r.version == Value(Whole(1)) then Some(OneKey(NullIfAbsent(r.tenantId), r.key)) else None
  }

  function KeyOfCurrent(r: Row): Option<IndexKey> {
    if r.isCurrent == Value(Bool(true)) then Some(CurrentKey(NullIfAbsent(r.tenantId), r.key)) else None
  }

  function KeyOfNumber(r: Row): Option<IndexKey> {
    Some(NumberKey(NullIfAbsent(r.tenantId), NullIfAbsent(r.group), NullIfAbsent(r.version)))
  }

  /** Which of the three unique indexes of the versioned rules are in force. */
  datatype Forced = Forced(one: bool, current: bool, number: bool)

  const ALL_FORCED := Forced(true, true, true)

  predicate SameKey(a: Option<IndexKey>, b: Option<IndexKey>) {
    a.Some? && a == b
  }

  /** The two rows have the same key in an index that is in force. */
  predicate Clash(a: Row, b: Row, f: Forced) {
    || (f.one && SameKey(KeyOfOne(a), KeyOfOne(b)))
    || (f.current && SameKey(KeyOfCurrent(a), KeyOfCurrent(b)))
    || (f.number && SameKey(KeyOfNumber(a), KeyOfNumber(b)))
  }

  /** No two rows clash: what the database keeps true, and what it asks for before it builds an index. */
  predicate UniqueUnder(rows: seq<Row>, f: Forced) {
    forall i, j :: 0 <= i < j < |rows| ==> !Clash(rows[i], rows[j], f)
  }

  /** The table meets all three indexes. */
  predicate MeetsIndexes(rows: seq<Row>) {
    UniqueUnder(rows, ALL_FORCED)
  }

  /** Two ids of different types that read alike. */
  predicate Twins(a: Row, b: Row) {
    a.id != b.id && TextOf(a.id) == TextOf(b.id)
  }

  /** Rows whose ids read alike are kept apart by the indexes. */
  ghost predicate TwinsApart(rows: seq<Row>) {
    forall i, j :: 0 <= i < j < |rows| && Twins(rows[i], rows[j]) ==> !Clash(Carry(rows[i]), Carry(rows[j]), ALL_FORCED)
  }

  lemma CarryProjects(r: Row)
    requires !Stuck(r) && RowFine(r)
    ensures Project(Carry(r)) == Project(r) && !Legacy(Carry(r)) && RowFine(Carry(r)) && Carry(r).id == r.id
  {}

  /** Rows that clash in an index are in one place for the preflight too. */
  lemma ClashIsSeen(a: Row, b: Row)
    requires RowFine(a) && RowFine(b) && !Legacy(a) && !Legacy(b) && Clash(a, b, ALL_FORCED)
    ensures var p, q := Project(a), Project(b);
            || (PlaceOfOne(p).Some? && PlaceOfOne(p) == PlaceOfOne(q))
            || (PlaceOfCurrent(p).Some? && PlaceOfCurrent(p) == PlaceOfCurrent(q))
            || PlaceOfNumber(p) == PlaceOfNumber(q)
  {}

  /** On a clean table only twins can clash once the rows are carried. */
  lemma OnlyTwinsClash(rows: seq<Row>, i: nat, j: nat)
    requires Clean(rows) && DistinctIds(rows) && NoneStuck(rows) && i < j < |rows|
    ensures Twins(rows[i], rows[j]) || !Clash(Carry(rows[i]), Carry(rows[j]), ALL_FORCED)
  {
    var p := ProjectAll(rows);
    CarryProjects(rows[i]);
    CarryProjects(rows[j]);
    if Clash(Carry(rows[i]), Carry(rows[j]), ALL_FORCED) {
      ClashIsSeen(Carry(rows[i]), Carry(rows[j]));
      assert Agree(p[i], p[j], PlaceOfOne, IdOf) && Agree(p[i], p[j], PlaceOfCurrent, IdOf)
             && Agree(p[i], p[j], PlaceOfNumber, IdOf);
    }
  }

  lemma CarriedMeetsIndexesIff(rows: seq<Row>)
    requires Clean(rows) && DistinctIds(rows) && NoneStuck(rows)
    ensures MeetsIndexes(CarryAll(rows)) <==> TwinsApart(rows)
  {
    var t := CarryAll(rows);
    if TwinsApart(rows) {
      forall i, j | 0 <= i < j < |t| ensures !Clash(t[i], t[j], ALL_FORCED) {
        OnlyTwinsClash(rows, i, j);
      }
    } else {
      var i, j :| 0 <= i < j < |rows| && Twins(rows[i], rows[j]) && Clash(Carry(rows[i]), Carry(rows[j]), ALL_FORCED);
      assert Clash(t[i], t[j], ALL_FORCED);
    }
  }

  /** A first version of a rule, and the same row under an id that only reads like the other's. */
  function TwinRules(id: ObjectId, tenant: ObjectId, group: ObjectId): seq<Row> {
    var a :=
      Row(Value(Oid(id)), Value(Oid(tenant)), "rule", "draft", Value(Oid(group)), Value(Whole(1)), Value(Bool(false)));
    [a, a.(id := Value(Other("string", id)))]
  }

  lemma TwinRulesAreClean(id: ObjectId, tenant: ObjectId, group: ObjectId)
    ensures Clean(TwinRules(id, tenant, group)) && DistinctIds(TwinRules(id, tenant, group))
  {
    var rows := TwinRules(id, tenant, group);
    assert STATUSES[0] == "draft";
    var p := ProjectAll(rows);
    assert p[0] == p[1] && OneIn(p[0], InGroup(p[0].tenantId, p[0].group));
    assert RowFine(rows[0]) && RowFine(rows[1]) && FieldsFine(p[0]);
  }

  /** A clean table with nothing to backfill, on which an index cannot be built. */
  lemma TwinsCanClash(id: ObjectId, tenant: ObjectId, group: ObjectId)
    ensures var rows := TwinRules(id, tenant, group);
            Clean(rows) && DistinctIds(rows) && NoneStuck(rows) && !MeetsIndexes(CarryAll(rows))
  {
    TwinRulesAreClean(id, tenant, group);
    var rows := TwinRules(id, tenant, group);
    var t := CarryAll(rows);
    assert t[0] == rows[0] && t[1] == rows[1] && SameKey(KeyOfOne(t[0]), KeyOfOne(t[1]));
  }

  // ----- the transaction

  /** The operations in order; none if one of them would break an index in force. */
  function WriteUnder(rows: seq<Row>, ops: seq<Operation>, f: Forced): (w: Option<Written>)
    ensures w.Some? ==> |w.value.rows| == |rows|
  {
    if ops == [] then Some(Written(rows, 0))
    else
      match WriteUnder(rows, ops[..|ops| - 1], f)
      case None => None
      case Some(w) =>
        var next := Write(w, ops[|ops| - 1]);
        if UniqueUnder(next.rows, f) then Some(next) else None
  }

  ghost predicate PlannedFor(op: Operation) {
    exists r: Row :: RowFine(r) && op == OperationFor(r)
  }

  /** Each row is as it was or filled. */
  ghost predicate Mixed(rows: seq<Row>, t: seq<Row>) {
    |t| == |rows| && forall i :: 0 <= i < |rows| ==> t[i] == rows[i] || t[i] == Carry(rows[i])
  }

  lemma UnsetNeverClashes(a: Row, b: Row, f: Forced)
    requires Fillable(a) && Fillable(b)
    ensures !Clash(Carry(a), b, f) && !Clash(b, Carry(a), f)
  {}

  /** If neither the table nor its carried form breaks an index, no table on the way does. */
  lemma MixedIsUnique(rows: seq<Row>, t: seq<Row>, f: Forced)
    requires Mixed(rows, t) && UniqueUnder(rows, f) && UniqueUnder(CarryAll(rows), f)
    ensures UniqueUnder(t, f)
  {
    var u := CarryAll(rows);
    forall i, j | 0 <= i < j < |t| ensures !Clash(t[i], t[j], f) {
      assert !Clash(rows[i], rows[j], f) && !Clash(u[i], u[j], f);
      if Fillable(rows[i]) && Fillable(rows[j]) {
        UnsetNeverClashes(rows[i], rows[j], f);
        UnsetNeverClashes(rows[j], rows[i], f);
      }
    }
  }

  lemma WriteKeepsMixed(rows: seq<Row>, w: Written, op: Operation)
    requires Mixed(rows, w.rows) && PlannedFor(op)
    ensures Mixed(rows, Write(w, op).rows)
  {
    var planned :| RowFine(planned) && op == OperationFor(planned);
    var found := FirstSelected(op, w.rows);
    if found.Some? {
      SelectedIsUntouched(op, planned, rows[found.value], w.rows[found.value]);
    }
  }

  lemma {:induction false} WritesUnder(rows: seq<Row>, ops: seq<Operation>, f: Forced)
    requires UniqueUnder(rows, f) && forall op :: op in ops ==> PlannedFor(op)
    ensures Mixed(rows, WriteAll(rows, ops).rows)
    ensures UniqueUnder(CarryAll(rows), f) ==> WriteUnder(rows, ops, f) == Some(WriteAll(rows, ops))
    ensures WriteUnder(rows, ops, f).Some?
            ==> WriteUnder(rows, ops, f) == Some(WriteAll(rows, ops)) && UniqueUnder(WriteAll(rows, ops).rows, f)
  {
    if ops != [] {
      var n := |ops| - 1;
      assert ops[n] in ops;
      WritesUnder(rows, ops[..n], f);
      WriteKeepsMixed(rows, WriteAll(rows, ops[..n]), ops[n]);
      if UniqueUnder(CarryAll(rows), f) {
        MixedIsUnique(rows, WriteAll(rows, ops).rows, f);
      }
    }
  }

  lemma {:induction false} OperationsArePlanned(rows: seq<Row>)
    requires forall i :: 0 <= i < |rows| ==> RowFine(rows[i])
    ensures forall op :: op in Operations(rows) ==> PlannedFor(op)
  {
    if rows != [] {
      var n := |rows| - 1;
      OperationsArePlanned(rows[..n]);
      assert RowFine(rows[n]) && PlannedFor(OperationFor(rows[n]));
    }
  }

  /** The writes of the plan break an index on the way exactly when the carried table does. */
  lemma BackfillIsRefusedIff(rows: seq<Row>, f: Forced)
    requires DistinctIds(rows) && UniqueUnder(rows, f) && forall i :: 0 <= i < |rows| ==> RowFine(rows[i])
    ensures WriteUnder(rows, Operations(rows), f)
            == if UniqueUnder(CarryAll(rows), f) then Some(WriteAll(rows, Operations(rows))) else None
  {
    OperationsArePlanned(rows);
    WritesUnder(rows, Operations(rows), f);
    BackfillFills(rows);
  }

  datatype Finish = Stored | Duplicate | Short

  method Updated(table: seq<Row>, op: Operation, f: Forced) returns (next: Option<seq<Row>>, matched: bool)
    requires UniqueUnder(table, f)
    ensures var w := Write(Written(table, 0), op);
            && matched == (w.matched == 1)
            && next == if UniqueUnder(w.rows, f) then Some(w.rows) else None
  {
    var found: Option<nat> := None;
    for i := 0 to |table|
      invariant found == FirstSelected(op, table[..i])
    {
      assert table[..i + 1][..i] == table[..i];
      if found.None? && Selects(op, table[i]) { found := Some(i); }
    }
    assert table[..|table|] == table;
    if found.None? { return Some(table), false; }
    var row := Filled(table[found.value], op);
    ghost var after := table[found.value := row];
    for j := 0 to |table|
      invariant forall i :: 0 <= i < j && i != found.value ==> !Clash(table[i], row, f) && !Clash(row, table[i], f)
    {
      if j != found.value && Clash(table[j], row, f) {
        assert after[j] == table[j] && after[found.value] == row;
        return None, true;
      }
    }
    return Some(table[found.value := row]), true;
  }

  /** One transaction: all operations in order, undone if one breaks an index in force or not every one matched. */
  method Backfill(rows: seq<Row>, operations: seq<Operation>, f: Forced) returns (stored: seq<Row>, finish: Finish)
    requires UniqueUnder(rows, f)
    ensures var w := WriteUnder(rows, operations, f);
            && finish == (if w.None? then Duplicate else if w.value.matched != |operations| then Short else Stored)
            && stored == if finish == Stored then w.value.rows else rows
  {
    var table, matched := rows, 0;
    for k := 0 to |operations|
      invariant Some(Written(table, matched)) == WriteUnder(rows, operations[..k], f) && UniqueUnder(table, f)
    {
      assert operations[..k + 1][..k] == operations[..k];
      var next, found := Updated(table, operations[k], f);
      if next.None? {
        NoneStays(rows, operations, k + 1, f);
        return rows, Duplicate;
      }
      table := next.value;
      if found { matched := matched + 1; }
    }
    assert operations[..|operations|] == operations;
    if matched != |operations| { return rows, Short; }
    return table, Stored;
  }

  lemma {:induction false} NoneStays(rows: seq<Row>, ops: seq<Operation>, k: nat, f: Forced)
    requires k <= |ops| && WriteUnder(rows, ops[..k], f).None?
    ensures WriteUnder(rows, ops, f).None?
    decreases |ops|
  {
    if k < |ops| {
      assert ops[..|ops| - 1][..k] == ops[..k];
      NoneStays(rows, ops[..|ops| - 1], k, f);
    } else {
      assert ops[..k] == ops;
    }
  }

  // ----- the table afterwards

  lemma CarryKeepsProjection(rows: seq<Row>)
    requires NoneStuck(rows) && forall i :: 0 <= i < |rows| ==> RowFine(rows[i])
    ensures ProjectAll(CarryAll(rows)) == ProjectAll(rows)
    ensures Clean(CarryAll(rows)) <==> Clean(rows)
  {
    var t := CarryAll(rows);
    forall i | 0 <= i < |rows| ensures Project(t[i]) == Project(rows[i]) && RowFine(t[i]) {
      CarryProjects(rows[i]);
    }
    assert ProjectAll(t) == ProjectAll(rows);
  }

  lemma {:induction false} NothingLeftToPlan(rows: seq<Row>)
    requires forall i :: 0 <= i < |rows| ==> !Legacy(rows[i])
    ensures Operations(rows) == []
  {
    if rows != [] {
      NothingLeftToPlan(rows[..|rows| - 1]);
    }
  }

  /**
   * A preflight without issues: the backfill finds every row exactly when no planned row holds a null or an id that is
   * no object id. Then it leaves a clean table with nothing to plan, and one that meets the three unique indexes
   * exactly when rows whose ids read alike are apart.
   */
  lemma BackfillIsSound(rows: seq<Row>)
    requires Clean(rows) && DistinctIds(rows)
    ensures var w := WriteAll(rows, Operations(rows));
            && (w.matched == |Operations(rows)| <==> NoneStuck(rows))
            && (NoneStuck(rows) ==> w.rows == CarryAll(rows) && Clean(w.rows) && Operations(w.rows) == []
                                    && (MeetsIndexes(w.rows) <==> TwinsApart(rows)))
  {
    BackfillFills(rows);
    AllMatchedIff(rows);
    if NoneStuck(rows) {
      var t := CarryAll(rows);
      CarryKeepsProjection(rows);
      forall i | 0 <= i < |t| ensures !Legacy(t[i]) { CarryProjects(rows[i]); }
      NothingLeftToPlan(t);
      CarriedMeetsIndexesIff(rows);
    }
  }

  // ----- one group per key

  lemma GroupHasOneKey(rows: seq<Row>, i: nat, j: nat)
    requires Clean(rows) && i < |rows| && j < |rows|
    requires var p := ProjectAll(rows); PlaceOfGroup(p[i]) == PlaceOfGroup(p[j])
    ensures rows[i].key == rows[j].key
  {}

  /** The version 1 of a row's group. */
  lemma OneOf(rows: seq<Row>, i: nat) returns (one: nat)
    requires Clean(rows) && i < |rows|
    ensures one < |rows|
    ensures var p := ProjectAll(rows); IsOne(p[one]) && PlaceOfGroup(p[one]) == PlaceOfGroup(p[i])
  {
    var p := ProjectAll(rows);
    assert HasOneInGroup(p, InGroup(p[i].tenantId, p[i].group));
    one :| 0 <= one < |p| && OneIn(p[one], InGroup(p[i].tenantId, p[i].group));
  }

  /** Rows `a` and `b`, whose ids read alike, are the version 1 of two groups. */
  ghost predicate SplitByTwins(rows: seq<Row>, a: nat, b: nat) {
    && a < |rows| && b < |rows| && Twins(rows[a], rows[b])
    && var p := ProjectAll(rows); IsOne(p[a]) && IsOne(p[b]) && PlaceOfOne(p[a]) == PlaceOfOne(p[b])
  }

  /**
   * On a clean table two rows of one tenant and group share the key, and two rows of one tenant and key are in one
   * group, unless the version 1 of the one group and that of the other have ids that read alike.
   */
  lemma OneGroupPerKey(rows: seq<Row>, i: nat, j: nat)
    requires Clean(rows) && DistinctIds(rows) && i < |rows| && j < |rows|
    requires TextOf(rows[i].tenantId) == TextOf(rows[j].tenantId)
    ensures ProjectAll(rows)[i].group == ProjectAll(rows)[j].group ==> rows[i].key == rows[j].key
    ensures rows[i].key == rows[j].key
            ==> ProjectAll(rows)[i].group == ProjectAll(rows)[j].group || exists a, b :: SplitByTwins(rows, a, b)
  {
    var p := ProjectAll(rows);
    if p[i].group == p[j].group {
      GroupHasOneKey(rows, i, j);
    }
    if rows[i].key == rows[j].key {
      var a := OneOf(rows, i);
      var b := OneOf(rows, j);
      GroupHasOneKey(rows, i, a);
      GroupHasOneKey(rows, j, b);
      OnesAgree(rows, a, b);
    }
  }

  lemma OnesAgree(rows: seq<Row>, a: nat, b: nat)
    requires Clean(rows) && DistinctIds(rows) && a < |rows| && b < |rows|
    requires var p := ProjectAll(rows); IsOne(p[a]) && IsOne(p[b]) && PlaceOfOne(p[a]) == PlaceOfOne(p[b])
    ensures a == b || SplitByTwins(rows, a, b)
  {
    var p := ProjectAll(rows);
    if a < b {
      assert Agree(p[a], p[b], PlaceOfOne, IdOf);
    } else if b < a {
      assert Agree(p[b], p[a], PlaceOfOne, IdOf);
    }
  }
}
