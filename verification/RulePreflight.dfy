/**
 * The preflight of the one-time migration of rules to versions (src/modules/rules/migration.ts:63-129): what it finds
 * wrong with the stored rows, and the backfill it plans. A composite map key, text joined by slashes in the source, is
 * a tuple here; ids that could hold a slash are issues of their own.
 */
module RulePreflight {
  import opened Prelude
  import opened ObjectIds

  /** A stored field: not there, there but null, or a value. */
  datatype Cell<+T> = Absent | Null | Value(v: T)

  datatype Number = Whole(n: int) | NotWhole(text: string)

  datatype Flag = Bool(b: bool) | NotBool(text: string)

  /** A stored reference: an object id, or a value of some other type that merely reads as this text. */
  datatype Ref = Oid(hex: ObjectId) | Other(kind: string, text: string)

  datatype Row = Row(
    id: Cell<Ref>,
    tenantId: Cell<Ref>,
    key: string,
    status: string,
    group: Cell<Ref>,
    version: Cell<Number>,
    isCurrent: Cell<Flag>)

  /** What the preflight sees of a reference: its text, empty for none. */
  function TextOf(c: Cell<Ref>): string {
    if !c.Value? then "" else if c.v.Oid? then c.v.hex else c.v.text
  }

  /** The backfill of one row: its own group, version 1, current when active. */
  datatype Operation =
    Operation(id: string, tenantId: string, key: string, status: string, group: string, isCurrent: bool)

  /** A row as it will be once the plan is carried out. */
  datatype Projected = Projected(
    id: string,
    tenantId: string,
    key: string,
    status: string,
    group: string,
    version: Cell<Number>,
    isCurrent: Cell<Flag>)

  datatype Issue =
    | BadId(id: string) | BadTenant(id: string) | BadKey(id: string) | BadStatus(id: string)
      | PartlyVersioned(id: string)
    | BadGroup(id: string) | BadVersion(id: string) | BadFlag(id: string) | CurrentNotActive(id: string)
    | SharedVersionOne(at: Place) | SharedCurrent(at: Place) | SharedVersion(at: Place)
    | GroupSpans(group: string) | NoVersionOne(at: Place)

  /** What the preflight groups rows by. */
  datatype Place =
    | Logical(tenantId: string, key: string)
    | InGroup(tenantId: string, group: string)
    | Numbered(tenantId: string, group: string, version: Cell<Number>)

  const STATUSES := ["draft", "approved", "active", "retired"]

  predicate Legacy(r: Row) {
    !r.group.Value? && !r.version.Value? && !r.isCurrent.Value?
  }

  predicate Versioned(r: Row) {
    r.group.Value? && r.version.Value? && r.isCurrent.Value?
  }

  function OperationFor(r: Row): Operation {
    Operation(TextOf(r.id), TextOf(r.tenantId), r.key, r.status, TextOf(r.id), r.status == "active")
  }

  function Project(r: Row): Projected {
    var id, tenantId := TextOf(r.id), TextOf(r.tenantId);
    if Legacy(r) then Projected(id, tenantId, r.key, r.status, id, Value(Whole(1)), Value(Bool(r.status == "active")))
    else Projected(id, tenantId, r.key, r.status, TextOf(r.group), r.version, r.isCurrent)
  }

  function ProjectAll(rows: seq<Row>): (p: seq<Projected>)
    ensures |p| == |rows|
  {
    seq(|rows|, i requires 0 <= i < |rows| => Project(rows[i]))
  }

  function Operations(rows: seq<Row>): seq<Operation> {
    if rows == [] then []
    else
      var last := rows[|rows| - 1];
      Operations(rows[..|rows| - 1]) + if Legacy(last) then [OperationFor(last)] else []
  }

  function CountVersioned(rows: seq<Row>): nat {
    if rows == [] then 0
    else CountVersioned(rows[..|rows| - 1]) + if Versioned(rows[|rows| - 1]) then 1 else 0
  }

  // ----- what a clean table is

  predicate RowFine(r: Row) {
    Castable(TextOf(r.id)) && Castable(TextOf(r.tenantId)) && r.key != "" && r.status in STATUSES
      && (Legacy(r) || Versioned(r))
  }

  predicate IsOne(p: Projected) {
    p.version == Value(Whole(1))
  }

  predicate FieldsFine(p: Projected) {
    && Castable(p.group)
    && p.version.Value? && p.version.v.Whole? && p.version.v.n >= 1
    && p.isCurrent == Value(Bool(p.status == "active"))
  }

  function PlaceOfOne(p: Projected): Option<Place> {
    if IsOne(p) then Some(Logical(p.tenantId, p.key)) else None
  }

  function PlaceOfCurrent(p: Projected): Option<Place> {
    if p.isCurrent == Value(Bool(true)) then Some(Logical(p.tenantId, p.key)) else None
  }

  function PlaceOfNumber(p: Projected): Option<Place> {
    Some(Numbered(p.tenantId, p.group, p.version))
  }

  function PlaceOfGroup(p: Projected): Option<Place> {
    Some(InGroup(p.tenantId, p.group))
  }

  function IdOf(p: Projected): string {
    p.id
  }

  function KeyOf(p: Projected): string {
    p.key
  }

  /** Of the first `n` rows, those in the same place have the same value. */
  ghost predicate Agreeing(p: seq<Projected>, n: nat, place: Projected -> Option<Place>, value: Projected -> string)
    requires n <= |p|
  {
    forall i, j :: 0 <= i < j < n ==> Agree(p[i], p[j], place, value)
  }

  predicate Agree(a: Projected, b: Projected, place: Projected -> Option<Place>, value: Projected -> string) {
    place(a).Some? && place(a) == place(b) ==> value(a) == value(b)
  }

  ghost predicate HasOneInGroup(p: seq<Projected>, place: Place) {
    exists j :: 0 <= j < |p| && OneIn(p[j], place)
  }

  predicate OneIn(p: Projected, place: Place) {
    IsOne(p) && PlaceOfGroup(p) == Some(place)
  }

  ghost predicate CleanUpTo(rows: seq<Row>, p: seq<Projected>, n: nat)
    requires |p| == |rows| && n <= |rows|
  {
    && (forall i :: 0 <= i < |rows| ==> RowFine(rows[i]))
    && (forall i :: 0 <= i < n ==> FieldsFine(p[i]))
    && Agreeing(p, n, PlaceOfOne, IdOf)
    && Agreeing(p, n, PlaceOfCurrent, IdOf)
    && Agreeing(p, n, PlaceOfNumber, IdOf)
    && Agreeing(p, n, PlaceOfGroup, KeyOf)
  }

  /**
   * Every row is well formed and, once backfilled, no two rows share a tenant, key and version 1, or a tenant and key
   * while current, or a tenant, group and version; a group has one key and a version 1.
   */
  ghost predicate Clean(rows: seq<Row>) {
    var p := ProjectAll(rows);
    && CleanUpTo(rows, p, |rows|)
    && forall i :: 0 <= i < |p| ==> HasOneInGroup(p, InGroup(p[i].tenantId, p[i].group))
  }

  // ----- recording places

  /** The map holds exactly the places of the first `n` rows, each with its rows' value. */
  ghost predicate Recorded(m: map<Place, string>, p: seq<Projected>, n: nat, place: Projected -> Option<Place>,
                           value: Projected -> string)
    requires n <= |p|
  {
    && (forall i :: 0 <= i < n ==> RecordedAt(m, p[i], place, value))
    && (forall k :: k in m ==> exists i :: 0 <= i < n && place(p[i]) == Some(k))
  }

  predicate RecordedAt(m: map<Place, string>, p: Projected, place: Projected -> Option<Place>,
                       value: Projected -> string)
  {
    place(p).Some? ==> place(p).value in m && m[place(p).value] == value(p)
  }

  function Record(m: map<Place, string>, at: Option<Place>, value: string): map<Place, string> {
    if at.None? || Conflict(m, at, value) then m else m[at.value := value]
  }

  /** An earlier row in the same place had another value; an empty one does not count. */
  predicate Conflict(m: map<Place, string>, at: Option<Place>, value: string) {
    at.Some? && at.value in m && m[at.value] != "" && m[at.value] != value
  }

  lemma RecordStep(m: map<Place, string>, p: seq<Projected>, n: nat, place: Projected -> Option<Place>,
                   value: Projected -> string)
    requires n < |p| && Recorded(m, p, n, place, value) && Agreeing(p, n, place, value)
    requires forall i :: 0 <= i < n ==> value(p[i]) != ""
    ensures Agreeing(p, n + 1, place, value) <==> !Conflict(m, place(p[n]), value(p[n]))
    ensures Agreeing(p, n + 1, place, value) ==> Recorded(Record(m, place(p[n]), value(p[n])), p, n + 1, place, value)
  {}

  // ----- the preflight

  method CheckRaw(row: Row) returns (issues: set<Issue>)
    ensures issues == {} <==> RowFine(row)
  {
    issues := {};
    var id := TextOf(row.id);
    if !Castable(id) { issues := issues + {BadId(id)}; }
    if !Castable(TextOf(row.tenantId)) { issues := issues + {BadTenant(id)}; }
    if row.key == "" { issues := issues + {BadKey(id)}; }
    if row.status !in STATUSES { issues := issues + {BadStatus(id)}; }
    if !Legacy(row) && !Versioned(row) { issues := issues + {PartlyVersioned(id)}; }
  }

  method ProjectRows(rows: seq<Row>)
    returns (projected: seq<Projected>, operations: seq<Operation>, alreadyVersioned: nat, issues: set<Issue>)
    ensures projected == ProjectAll(rows) && operations == Operations(rows) && alreadyVersioned == CountVersioned(rows)
    ensures issues == {} <==> forall i :: 0 <= i < |rows| ==> RowFine(rows[i])
  {
    projected, operations, alreadyVersioned, issues := [], [], 0, {};
    for i := 0 to |rows|
      invariant projected == ProjectAll(rows)[..i]
      invariant operations == Operations(rows[..i]) && alreadyVersioned == CountVersioned(rows[..i])
      invariant issues == {} <==> forall j :: 0 <= j < i ==> RowFine(rows[j])
    {
      assert rows[..i + 1][..i] == rows[..i];
      var row := rows[i];
      var raised := CheckRaw(row);
      issues := issues + raised;
      if Legacy(row) {
        var op := OperationFor(row);
        operations := operations + [op];
        projected := projected
          + [Projected(op.id, op.tenantId, op.key, op.status, op.group, Value(Whole(1)), Value(Bool(op.isCurrent)))];
      } else {
        if Versioned(row) { alreadyVersioned := alreadyVersioned + 1; }
        projected := projected
          + [Projected(TextOf(row.id), TextOf(row.tenantId), row.key, row.status, TextOf(row.group),
                                            row.version, row.isCurrent)];
      }
      assert ProjectAll(rows)[..i + 1] == ProjectAll(rows)[..i] + [Project(row)];
    }
    assert rows[..|rows|] == rows && ProjectAll(rows)[..|rows|] == ProjectAll(rows);
  }

  method CheckFields(p: Projected) returns (issues: set<Issue>)
    ensures issues == {} <==> FieldsFine(p)
  {
    issues := {};
    if !Castable(p.group) { issues := issues + {BadGroup(p.id)}; }
    if !(p.version.Value? && p.version.v.Whole? && p.version.v.n >= 1) { issues := issues + {BadVersion(p.id)}; }
    if !(p.isCurrent.Value? && p.isCurrent.v.Bool?) { issues := issues + {BadFlag(p.id)}; }
    if p.isCurrent.Value? && p.isCurrent.v.Bool? && p.isCurrent.v.b != (p.status == "active") {
      issues := issues + {CurrentNotActive(p.id)};
    }
  }

  method RecordUnique(m: map<Place, string>, at: Option<Place>, value: string, issue: Issue, issues: set<Issue>)
    returns (recorded: map<Place, string>, found: set<Issue>)
    ensures recorded == Record(m, at, value)
    ensures found == if Conflict(m, at, value) then issues + {issue} else issues
  {
    recorded, found := m, issues;
    if at.Some? {
      if at.value in m && m[at.value] != "" && m[at.value] != value {
        found := found + {issue};
      } else {
        recorded := recorded[at.value := value];
      }
    }
  }

  /** The four maps of the second pass. */
  datatype Seen = Seen(
    logicalV1: map<Place, string>,
    current: map<Place, string>,
    groupVersion: map<Place, string>,
    groupIdentity: map<Place, string>)

  /** How the maps stand after `n` rows that raised no issue. */
  ghost predicate AllRecorded(p: seq<Projected>, n: nat, seen: Seen)
    requires n <= |p|
  {
    && Recorded(seen.logicalV1, p, n, PlaceOfOne, IdOf)
    && Recorded(seen.current, p, n, PlaceOfCurrent, IdOf)
    && Recorded(seen.groupVersion, p, n, PlaceOfNumber, IdOf)
    && Recorded(seen.groupIdentity, p, n, PlaceOfGroup, KeyOf)
  }

  function RecordRow(seen: Seen, row: Projected): Seen {
    Seen(Record(seen.logicalV1, PlaceOfOne(row), row.id),
         Record(seen.current, PlaceOfCurrent(row), row.id),
         Record(seen.groupVersion, PlaceOfNumber(row), row.id),
         Record(seen.groupIdentity, PlaceOfGroup(row), row.key))
  }

  predicate RowClean(seen: Seen, row: Projected) {
    && FieldsFine(row)
    && !Conflict(seen.logicalV1, PlaceOfOne(row), row.id)
    && !Conflict(seen.current, PlaceOfCurrent(row), row.id)
    && !Conflict(seen.groupVersion, PlaceOfNumber(row), row.id)
    && !Conflict(seen.groupIdentity, PlaceOfGroup(row), row.key)
  }

  lemma CleanExtends(rows: seq<Row>, p: seq<Projected>, n: nat)
    requires |p| == |rows| && n < |rows|
    ensures CleanUpTo(rows, p, n + 1)
            <==> CleanUpTo(rows, p, n) && FieldsFine(p[n])
                 && Agreeing(p, n + 1, PlaceOfOne, IdOf) && Agreeing(p, n + 1, PlaceOfCurrent, IdOf)
                 && Agreeing(p, n + 1, PlaceOfNumber, IdOf) && Agreeing(p, n + 1, PlaceOfGroup, KeyOf)
  {}

  lemma CleanValues(rows: seq<Row>, n: nat)
    requires n <= |rows| && CleanUpTo(rows, ProjectAll(rows), n)
    ensures forall i :: 0 <= i < n ==> ProjectAll(rows)[i].id != "" && ProjectAll(rows)[i].key != ""
  {}

  lemma AllStep(rows: seq<Row>, n: nat, seen: Seen)
    requires n < |rows| && CleanUpTo(rows, ProjectAll(rows), n) && AllRecorded(ProjectAll(rows), n, seen)
    ensures var p := ProjectAll(rows);
            && (CleanUpTo(rows, p, n + 1) <==> RowClean(seen, p[n]))
            && (RowClean(seen, p[n]) ==> AllRecorded(p, n + 1, RecordRow(seen, p[n])))
  {
    var p := ProjectAll(rows);
    CleanExtends(rows, p, n);
    CleanValues(rows, n);
    RecordStep(seen.logicalV1, p, n, PlaceOfOne, IdOf);
    RecordStep(seen.current, p, n, PlaceOfCurrent, IdOf);
    RecordStep(seen.groupVersion, p, n, PlaceOfNumber, IdOf);
    RecordStep(seen.groupIdentity, p, n, PlaceOfGroup, KeyOf);
  }

  /** So far clean, with the maps to match; or no longer clean. */
  ghost predicate CleanSoFar(rows: seq<Row>, n: nat, clean: bool, seen: Seen)
    requires n <= |rows|
  {
    (clean <==> CleanUpTo(rows, ProjectAll(rows), n)) && (clean ==> AllRecorded(ProjectAll(rows), n, seen))
  }

  lemma CleanStep(rows: seq<Row>, n: nat, clean: bool, seen: Seen)
    requires n < |rows| && CleanSoFar(rows, n, clean, seen)
    ensures var row := ProjectAll(rows)[n]; CleanSoFar(rows, n + 1, clean && RowClean(seen, row), RecordRow(seen, row))
  {
    if clean {
      AllStep(rows, n, seen);
    } else {
      CleanExtends(rows, ProjectAll(rows), n);
    }
  }

  lemma CleanStart(rows: seq<Row>, clean: bool)
    requires clean <==> forall i :: 0 <= i < |rows| ==> RowFine(rows[i])
    ensures CleanSoFar(rows, 0, clean, Seen(map[], map[], map[], map[]))
  {}

  method CheckRow(row: Projected, seen: Seen, before: set<Issue>) returns (recorded: Seen, issues: set<Issue>)
    ensures recorded == RecordRow(seen, row)
    ensures issues == {} <==> before == {} && RowClean(seen, row)
  {
    var fieldIssues := CheckFields(row);
    issues := before + fieldIssues;
    var logicalV1, current, groupVersion, groupIdentity;
    logicalV1, issues :=
      RecordUnique(seen.logicalV1, PlaceOfOne(row), row.id, SharedVersionOne(Logical(row.tenantId, row.key)), issues);
    current, issues :=
      RecordUnique(seen.current, PlaceOfCurrent(row), row.id, SharedCurrent(Logical(row.tenantId, row.key)), issues);
    groupVersion, issues := RecordUnique(seen.groupVersion, PlaceOfNumber(row), row.id,
                                         SharedVersion(Numbered(row.tenantId, row.group, row.version)), issues);
    groupIdentity,
      issues := RecordUnique(seen.groupIdentity, PlaceOfGroup(row), row.key, GroupSpans(row.group), issues);
    recorded := Seen(logicalV1, current, groupVersion, groupIdentity);
  }

  method RecordGroup(projected: seq<Projected>, n: nat, groups: set<Place>, withOne: set<Place>)
    returns (validGroups: set<Place>, groupsWithVersionOne: set<Place>)
    requires n < |projected| && groups == GroupsOf(projected, n) && withOne == GroupsWithOne(projected, n)
    ensures validGroups == GroupsOf(projected, n + 1) && groupsWithVersionOne == GroupsWithOne(projected, n + 1)
  {
    var row := projected[n];
    validGroups, groupsWithVersionOne := groups, withOne;
    if Castable(row.group) {
      validGroups := validGroups + {InGroup(row.tenantId, row.group)};
      if IsOne(row) { groupsWithVersionOne := groupsWithVersionOne + {InGroup(row.tenantId, row.group)}; }
    }
  }

  /** The second pass: one row after the other, against what the rows before it recorded. */
  method CheckPlaces(rows: seq<Row>, projected: seq<Projected>, rowIssues: set<Issue>)
    returns (issues: set<Issue>, validGroups: set<Place>, groupsWithVersionOne: set<Place>)
    requires projected == ProjectAll(rows) && (rowIssues == {} <==> forall i :: 0 <= i < |rows| ==> RowFine(rows[i]))
    ensures issues == {} <==> CleanUpTo(rows, projected, |rows|)
    ensures validGroups == GroupsOf(projected, |rows|) && groupsWithVersionOne == GroupsWithOne(projected, |rows|)
  {
    issues, validGroups, groupsWithVersionOne := rowIssues, {}, {};
    var seen := Seen(map[], map[], map[], map[]);
    CleanStart(rows, issues == {});
    for n := 0 to |rows|
      invariant CleanSoFar(rows, n, issues == {}, seen)
      invariant validGroups == GroupsOf(projected, n) && groupsWithVersionOne == GroupsWithOne(projected, n)
    {
      var row := projected[n];
      CleanStep(rows, n, issues == {}, seen);
      seen, issues := CheckRow(row, seen, issues);
      validGroups, groupsWithVersionOne := RecordGroup(projected, n, validGroups, groupsWithVersionOne);
    }
  }

  function GroupsOf(p: seq<Projected>, n: nat): set<Place>
    requires n <= |p|
  {
    if n == 0 then {}
    else GroupsOf(p, n - 1) + if Castable(p[n - 1].group) then {InGroup(p[n - 1].tenantId, p[n - 1].group)} else {}
  }

  function GroupsWithOne(p: seq<Projected>, n: nat): set<Place>
    requires n <= |p|
  {
    if n == 0 then {}
    else
      GroupsWithOne(p, n - 1)
      + if Castable(p[n - 1].group) && IsOne(p[n - 1]) then {InGroup(p[n - 1].tenantId, p[n - 1].group)} else {}
  }

  lemma {:induction false} GroupsExact(p: seq<Projected>, n: nat, g: Place)
    requires n <= |p|
    ensures g in GroupsOf(p, n) <==> exists i :: 0 <= i < n && Castable(p[i].group) && PlaceOfGroup(p[i]) == Some(g)
    ensures g in GroupsWithOne(p, n) <==> exists i :: 0 <= i < n && Castable(p[i].group) && OneIn(p[i], g)
  {
    if n > 0 {
      GroupsExact(p, n - 1, g);
    }
  }

  lemma GroupsCovered(p: seq<Projected>)
    requires forall i :: 0 <= i < |p| ==> FieldsFine(p[i])
    ensures GroupsOf(p, |p|) <= GroupsWithOne(p, |p|)
            <==> forall i :: 0 <= i < |p| ==> HasOneInGroup(p, InGroup(p[i].tenantId, p[i].group))
  {
    if GroupsOf(p, |p|) <= GroupsWithOne(p, |p|) {
      forall i | 0 <= i < |p| ensures HasOneInGroup(p, InGroup(p[i].tenantId, p[i].group)) {
        var g := InGroup(p[i].tenantId, p[i].group);
        GroupsExact(p, |p|, g);
        assert Castable(p[i].group) && PlaceOfGroup(p[i]) == Some(g);
      }
    }
    if forall i :: 0 <= i < |p| ==> HasOneInGroup(p, InGroup(p[i].tenantId, p[i].group)) {
      forall g | g in GroupsOf(p, |p|) ensures g in GroupsWithOne(p, |p|) {
        GroupsExact(p, |p|, g);
        var i :| 0 <= i < |p| && Castable(p[i].group) && PlaceOfGroup(p[i]) == Some(g);
        assert HasOneInGroup(p, InGroup(p[i].tenantId, p[i].group));
        var j :| 0 <= j < |p| && OneIn(p[j], g);
        assert FieldsFine(p[j]);
      }
    }
  }

  /** The whole preflight: it raises no issue exactly on a clean table, and plans exactly the legacy rows, in order. */
  method PlanRuleBackfill(rows: seq<Row>)
    returns (total: nat, alreadyVersioned: nat, operations: seq<Operation>, issues: set<Issue>)
    ensures total == |rows| && alreadyVersioned == CountVersioned(rows)
    ensures operations == Operations(rows)
    ensures issues == {} <==> Clean(rows)
  {
    var projected;
    projected, operations, alreadyVersioned, issues := ProjectRows(rows);
    var validGroups, groupsWithVersionOne;
    issues, validGroups, groupsWithVersionOne := CheckPlaces(rows, projected, issues);
    ghost var placed := issues;
    var pending := validGroups;
    while pending != {}
      invariant pending <= validGroups
      invariant issues == {} <==> placed == {} && validGroups - pending <= groupsWithVersionOne
      decreases pending
    {
      var group :| group in pending;
      pending := pending - {group};
      if group !in groupsWithVersionOne { issues := issues + {NoVersionOne(group)}; }
    }
    assert validGroups - {} == validGroups;
    if placed == {} {
      GroupsCovered(projected);
    }
    total := |rows|;
  }
}
