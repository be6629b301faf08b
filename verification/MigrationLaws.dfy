/**
 * What the migration of rules (src/modules/rules/migration.ts) finds, plans and writes, row by row: when a stored row
 * and a table are in order, which rows are planned with what, and what the backfill makes of each.
 */
module MigrationLaws {
  import opened Prelude
  import opened ObjectIds
  import opened RulePreflight
  import opened RuleBackfill

  // ----- one row

  /** A text of 24 hexadecimal digits. */
  predicate IdText(text: string) {
    |text| == 24
    && forall i :: 0 <= i < 24 ==> '0' <= text[i] <= '9' || 'a' <= text[i] <= 'f' || 'A' <= text[i] <= 'F'
  }

  /** The reference is there and reads as this text. */
  predicate Reads(c: Cell<Ref>, text: string) {
    match c
    case Value(Oid(hex)) => text == hex
    case Value(Other(_, shown)) => text == shown
    case _ => text == ""
  }

  predicate There<T>(c: Cell<T>) {
    c != Absent && c != Null
  }

  /** None of the version fields is there, or all of them. */
  predicate NoneThere(r: Row) {
    !There(r.group) && !There(r.version) && !There(r.isCurrent)
  }

  predicate AllThere(r: Row) {
    There(r.group) && There(r.version) && There(r.isCurrent)
  }

  lemma ReadsAs(c: Cell<Ref>, text: string)
    ensures Reads(c, text) <==> TextOf(c) == text
  {}

  lemma IdTextMeans(text: string)
    ensures Castable(text) <==> IdText(text)
  {}

  /**
   * A row is in order when its ids read as ids, it has a key and a known status, and no version field is missing alone.
   */
  lemma RowFineMeans(r: Row)
    ensures RowFine(r)
            <==> && (forall text :: Reads(r.id, text) || Reads(r.tenantId, text) ==> IdText(text))
                 && r.key != "" && r.status in ["draft", "approved", "active", "retired"]
                    && (NoneThere(r) || AllThere(r))
  {
    IdTextMeans(TextOf(r.id));
    IdTextMeans(TextOf(r.tenantId));
    forall text ensures Reads(r.id, text) <==> TextOf(r.id) == text { ReadsAs(r.id, text); }
    forall text ensures Reads(r.tenantId, text) <==> TextOf(r.tenantId) == text { ReadsAs(r.tenantId, text); }
  }

  // ----- the plan

  /** This is the operation planned for the row: its own group, version 1, current when active. */
  predicate PlannedFor(r: Row, op: Operation) {
    && Reads(r.id, op.id) && Reads(r.tenantId, op.tenantId) && op.key == r.key && op.status == r.status
    && op.group == op.id && (op.isCurrent <==> r.status == "active")
  }

  /** The rows without version fields among the first `n`. */
  ghost function Unversioned(rows: seq<Row>, n: nat): nat
    requires n <= |rows|
  {
    if n == 0 then 0 else Unversioned(rows, n - 1) + if NoneThere(rows[n - 1]) then 1 else 0
  }

  ghost function FullyVersioned(rows: seq<Row>, n: nat): nat
    requires n <= |rows|
  {
    if n == 0 then 0 else FullyVersioned(rows, n - 1) + if AllThere(rows[n - 1]) then 1 else 0
  }

  /** One operation for each row without version fields, in the order of the rows, and none for any other. */
  lemma {:induction false} PlanMeans(rows: seq<Row>, n: nat)
    requires n <= |rows|
    ensures |Operations(rows[..n])| == Unversioned(rows, n) && CountVersioned(rows[..n]) == FullyVersioned(rows, n)
    ensures forall i :: 0 <= i < n && NoneThere(rows[i]) ==>
              Unversioned(rows, i) < Unversioned(rows, n)
              && PlannedFor(rows[i], Operations(rows[..n])[Unversioned(rows, i)])
  {
    if n > 0 {
      PlanMeans(rows, n - 1);
      assert rows[..n][..n - 1] == rows[..n - 1];
      ReadsAs(rows[n - 1].id, TextOf(rows[n - 1].id));
      ReadsAs(rows[n - 1].tenantId, TextOf(rows[n - 1].tenantId));
    }
  }

  // ----- the table

  /** What the row's group, version and currency are, or will be once the plan is carried out. */
  ghost predicate WillBe(r: Row, group: string, version: Cell<Number>, isCurrent: Cell<Flag>) {
    if NoneThere(r)
    then Reads(r.id, group) && version == Value(Whole(1)) && isCurrent == Value(Bool(r.status == "active"))
    else Reads(r.group, group) && version == r.version && isCurrent == r.isCurrent
  }

  ghost predicate IsProjected(r: Row, p: Projected) {
    && Reads(r.id, p.id) && Reads(r.tenantId, p.tenantId) && p.key == r.key && p.status == r.status
    && WillBe(r, p.group, p.version, p.isCurrent)
  }

  lemma ProjectMeans(r: Row)
    ensures IsProjected(r, Project(r))
  {
    ReadsAs(r.id, TextOf(r.id));
    ReadsAs(r.tenantId, TextOf(r.tenantId));
    ReadsAs(r.group, TextOf(r.group));
  }

  /** The fields of a version: a group that reads as an id, a whole number from 1, and current exactly when active. */
  predicate VersionFine(p: Projected) {
    && IdText(p.group) && p.version.Value? && p.version.v.Whole? && p.version.v.n > 0
    && p.isCurrent == Value(Bool(p.status == "active"))
  }

  /** Two rows that the versioned table could not tell apart. */
  predicate Clashes(a: Projected, b: Projected) {
    && a.tenantId == b.tenantId && a.id != b.id
    && ((a.key == b.key && a.version == b.version == Value(Whole(1)))
        || (a.key == b.key && a.isCurrent == b.isCurrent == Value(Bool(true)))
        || (a.group == b.group && a.version == b.version))
  }

  /**
   * A table is clean when every row is in order and so are its version fields, no two rows clash, and each group has
   * one key and a version 1.
   */
  ghost predicate InOrder(rows: seq<Row>, p: seq<Projected>)
    requires |p| == |rows|
  {
    && (forall r :: r in rows ==> RowFine(r)) && (forall x :: x in p ==> VersionFine(x))
    && (forall i, j :: 0 <= i < j < |p| ==> !Clashes(p[i], p[j]))
    && (forall i, j :: 0 <= i < j < |p| ==> SameGroupSameKey(p[i], p[j]))
    && forall x :: x in p ==> GroupBegins(p, x)
  }

  predicate SameGroupSameKey(a: Projected, b: Projected) {
    a.tenantId == b.tenantId && a.group == b.group ==> a.key == b.key
  }

  /** The group has a version 1. */
  ghost predicate GroupBegins(p: seq<Projected>, x: Projected) {
    exists y :: y in p && y.tenantId == x.tenantId && y.group == x.group && y.version == Value(Whole(1))
  }

  lemma FieldsMean(p: Projected)
    ensures FieldsFine(p) <==> VersionFine(p)
  {
    IdTextMeans(p.group);
  }

  lemma ClashMeans(a: Projected, b: Projected)
    ensures !Clashes(a, b)
            <==> Agree(a, b, PlaceOfOne, IdOf) && Agree(a, b, PlaceOfCurrent, IdOf) && Agree(a, b, PlaceOfNumber, IdOf)
    ensures SameGroupSameKey(a, b) <==> Agree(a, b, PlaceOfGroup, KeyOf)
  {}

  lemma BeginsMeans(p: seq<Projected>, x: Projected)
    ensures GroupBegins(p, x) <==> HasOneInGroup(p, InGroup(x.tenantId, x.group))
  {
    if y :| y in p && y.tenantId == x.tenantId && y.group == x.group && y.version == Value(Whole(1)) {
      var j :| 0 <= j < |p| && p[j] == y;
      assert OneIn(p[j], InGroup(x.tenantId, x.group));
    }
    if j :| 0 <= j < |p| && OneIn(p[j], InGroup(x.tenantId, x.group)) {
      assert p[j] in p;
    }
  }

  lemma CleanMeans(rows: seq<Row>)
    ensures Clean(rows) <==> InOrder(rows, ProjectAll(rows))
  {
    var p := ProjectAll(rows);
    forall i | 0 <= i < |p| ensures FieldsFine(p[i]) <==> VersionFine(p[i]) { FieldsMean(p[i]); }
    forall i, j | 0 <= i < j < |p|
      ensures !Clashes(p[i], p[j]) <==> Agree(p[i], p[j], PlaceOfOne, IdOf) && Agree(p[i], p[j], PlaceOfCurrent, IdOf)
                                        && Agree(p[i], p[j], PlaceOfNumber, IdOf)
      ensures SameGroupSameKey(p[i], p[j]) <==> Agree(p[i], p[j], PlaceOfGroup, KeyOf)
    {
      ClashMeans(p[i], p[j]);
    }
    forall i | 0 <= i < |p| ensures GroupBegins(p, p[i]) <==> HasOneInGroup(p, InGroup(p[i].tenantId, p[i].group)) {
      BeginsMeans(p, p[i]);
    }
  }

  // ----- the backfill

  /** The row is planned and holds nothing but object ids, and no null where it lacks a field. */
  predicate CanBeFilled(r: Row) {
    && r.group == Absent && r.version == Absent && r.isCurrent == Absent
    && r.id.Value? && r.id.v.Oid? && r.tenantId.Value? && r.tenantId.v.Oid?
  }

  /**
   * Writing the plan gives each such row its own id as group, version 1 and its currency, and leaves every other alone.
   */
  lemma BackfillLeaves(rows: seq<Row>)
    requires DistinctIds(rows) && forall i :: 0 <= i < |rows| ==> RowFine(rows[i])
    ensures var t := WriteAll(rows, Operations(rows)).rows;
            && |t| == |rows|
            && forall i :: 0 <= i < |rows| ==>
                 t[i] == if CanBeFilled(rows[i])
                         then rows[i].(group := rows[i].id, version := Value(Whole(1)),
                                       isCurrent := Value(Bool(rows[i].status == "active")))
                         else rows[i]
    ensures WriteAll(rows, Operations(rows)).matched == |set i: nat | i < |rows| && CanBeFilled(rows[i])|
  {
    BackfillFills(rows);
    forall i | 0 <= i < |rows| ensures Fillable(rows[i]) <==> CanBeFilled(rows[i]) {}
    assert FillableAmong(rows) == set i: nat | i < |rows| && CanBeFilled(rows[i]);
  }

  // ----- the unique indexes

  /** What reads as nothing to an index: a field that is missing, or null. */
  predicate SameCell<T(==)>(a: Cell<T>, b: Cell<T>) {
    a == b || (!There(a) && !There(b))
  }

  /** Two rows that one of the three unique indexes refuses to hold together. */
  predicate CannotBoth(a: Row, b: Row) {
    && SameCell(a.tenantId, b.tenantId)
    && ((a.key == b.key && a.version == b.version == Value(Whole(1)))
        || (a.key == b.key && a.isCurrent == b.isCurrent == Value(Bool(true)))
        || (SameCell(a.group, b.group) && SameCell(a.version, b.version)))
  }

  lemma MeetsMeans(rows: seq<Row>)
    ensures MeetsIndexes(rows) <==> forall i, j :: 0 <= i < j < |rows| ==> !CannotBoth(rows[i], rows[j])
  {
    forall i, j | 0 <= i < j < |rows| ensures Clash(rows[i], rows[j], ALL_FORCED) <==> CannotBoth(rows[i], rows[j]) {}
  }
}
