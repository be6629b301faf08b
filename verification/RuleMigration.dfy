/**
 * The index half of the rule migration and the order of its steps (src/modules/rules/migration.ts:132-273,
 * src/modules/rules/indexes.ts): backfill, then every new unique index, then and only then the legacy one is dropped.
 */
module RuleMigration {
  import opened Prelude
  import opened RulePreflight
  import opened RuleBackfill

  datatype KeyPart = KeyPart(field: string, order: int)

  /** A partial filter: none, one of the two the targets use, or any other. */
  datatype Where = Everywhere | WhereVersionOne | WhereCurrent | Elsewhere(text: string)

  datatype Index =
    Index(name: Option<string>, key: seq<KeyPart>, unique: bool, sparse: bool, collated: bool, partial: Where)

  datatype Target = Target(name: string, key: seq<KeyPart>, partial: Where)

  const LEGACY_KEY := [KeyPart("tenantId", 1), KeyPart("key", 1)]

  const VERSION_ONE := Target("tenantId_1_key_1_version_1_unique", LEGACY_KEY, WhereVersionOne)

  const CURRENT := Target("tenantId_1_key_1_isCurrent_1",
                          [KeyPart("tenantId", 1), KeyPart("key", 1), KeyPart("isCurrent", 1)], WhereCurrent)

  const GROUP_VERSION := Target("tenantId_1_versionGroupId_1_version_1",
                                [KeyPart("tenantId", 1), KeyPart("versionGroupId", 1), KeyPart("version", 1)],
                                  Everywhere)

  const TARGETS := [VERSION_ONE, CURRENT, GROUP_VERSION]

  predicate IsLegacy(x: Index) {
    x.key == LEGACY_KEY && x.unique && !x.sparse && !x.collated && x.partial == Everywhere
  }

  predicate Matches(x: Index, t: Target) {
    x.key == t.key && x.unique && !x.sparse && !x.collated && x.partial == t.partial
  }

  function Created(t: Target): Index {
    Index(Some(t.name), t.key, true, false, false, t.partial)
  }

  ghost predicate Has(indexes: seq<Index>, t: Target) {
    exists x :: x in indexes && Matches(x, t)
  }

  ghost predicate NameTaken(indexes: seq<Index>, name: string) {
    exists x :: x in indexes && x.name == Some(name)
  }

  ghost predicate LegacyName(indexes: seq<Index>, name: string) {
    exists x :: x in indexes && IsLegacy(x) && x.name == Some(name)
  }

  function NameOr(x: Index): string {
    if x.name.Some? then x.name.value else ""
  }

  /** An index on a target's fields that is neither the target nor named like an index to be dropped. */
  ghost predicate InTheWay(indexes: seq<Index>, t: Target) {
    exists x :: x in indexes && x.key == t.key && !Matches(x, t) && !LegacyName(indexes, NameOr(x))
  }

  /** What the preflight says of one target. */
  datatype Finding = Satisfied | Unexpected | Blocked | ToCreate

  ghost function FindingOf(indexes: seq<Index>, t: Target): Finding {
    if Has(indexes, t) then Satisfied
    else if NameTaken(indexes, t.name) then Unexpected
    else if InTheWay(indexes, t) then Blocked
    else ToCreate
  }

  ghost predicate IndexesReady(indexes: seq<Index>) {
    forall t :: t in TARGETS ==> FindingOf(indexes, t) == Satisfied || FindingOf(indexes, t) == ToCreate
  }

  datatype Plan =
    Plan(legacyNames: set<string>, satisfied: set<Target>, create: set<Target>, issues: set<(Finding, Target)>)

  method FindLegacy(indexes: seq<Index>) returns (names: set<string>)
    ensures forall name :: name in names <==> LegacyName(indexes, name)
  {
    names := {};
    for i := 0 to |indexes|
      invariant forall name :: name in names <==> LegacyName(indexes[..i], name)
    {
      if IsLegacy(indexes[i]) && indexes[i].name.Some? { names := names + {indexes[i].name.value}; }
      assert indexes[..i + 1] == indexes[..i] + [indexes[i]];
    }
    assert indexes[..|indexes|] == indexes;
  }

  method Inspect(indexes: seq<Index>, t: Target, legacy: set<string>) returns (finding: Finding)
    requires forall name :: name in legacy <==> LegacyName(indexes, name)
    ensures finding == FindingOf(indexes, t)
  {
    var exact, sameName, inTheWay := false, false, false;
    for i := 0 to |indexes|
      invariant exact <==> exists x :: x in indexes[..i] && Matches(x, t)
      invariant sameName <==> exists x :: x in indexes[..i] && x.name == Some(t.name)
      invariant inTheWay <==> exists x :: x in indexes[..i] && x.key == t.key && !Matches(x, t) && NameOr(x) !in legacy
    {
      var x := indexes[i];
      assert indexes[..i + 1] == indexes[..i] + [x];
      exact := exact || Matches(x, t);
      sameName := sameName || x.name == Some(t.name);
      inTheWay := inTheWay || (x.key == t.key && !Matches(x, t) && NameOr(x) !in legacy);
    }
    assert indexes[..|indexes|] == indexes;
    finding := if exact then Satisfied else if sameName then Unexpected else if inTheWay then Blocked else ToCreate;
  }

  /**
   * The index preflight: only an exact legacy unique index may be dropped, and each target is there, creatable or at
   * issue.
   */
  method PlanRuleIndexes(indexes: seq<Index>) returns (plan: Plan)
    ensures forall name :: name in plan.legacyNames <==> LegacyName(indexes, name)
    ensures forall t :: t in plan.satisfied <==> t in TARGETS && FindingOf(indexes, t) == Satisfied
    ensures forall t :: t in plan.create <==> t in TARGETS && FindingOf(indexes, t) == ToCreate
    ensures forall f, t :: (f, t) in plan.issues
                           <==> t in TARGETS && f == FindingOf(indexes, t) && f != Satisfied && f != ToCreate
    ensures plan.issues == {} <==> IndexesReady(indexes)
  {
    var legacy := FindLegacy(indexes);
    var satisfied, create, issues := {}, {}, {};
    for k := 0 to |TARGETS|
      invariant forall t :: t in satisfied <==> t in TARGETS[..k] && FindingOf(indexes, t) == Satisfied
      invariant forall t :: t in create <==> t in TARGETS[..k] && FindingOf(indexes, t) == ToCreate
      invariant forall f, t :: (f, t) in issues
                               <==> t in TARGETS[..k] && f == FindingOf(indexes, t) && f != Satisfied && f != ToCreate
    {
      var target := TARGETS[k];
      assert TARGETS[..k + 1] == TARGETS[..k] + [target];
      var finding := Inspect(indexes, target, legacy);
      match finding
      case Satisfied => satisfied := satisfied + {target};
      case ToCreate => create := create + {target};
      case _ => issues := issues + {(finding, target)};
    }
    plan := Plan(legacy, satisfied, create, issues);
    if !IndexesReady(indexes) {
      var t :| t in TARGETS && FindingOf(indexes, t) != Satisfied && FindingOf(indexes, t) != ToCreate;
      assert (FindingOf(indexes, t), t) in issues;
    } else if issues != {} {
      ghost var found :| found in issues;
      assert (found.0, found.1) in issues;
    }
  }

  // ----- single index steps

  /** One unique index on tenant and key is in force, over all rows or over every version 1. */
  ghost predicate Protected(indexes: seq<Index>) {
    exists x :: x in indexes && (IsLegacy(x) || Matches(x, VERSION_ONE))
  }

  ghost predicate DistinctNames(indexes: seq<Index>) {
    forall x, y :: x in indexes && y in indexes && x.name.Some? && x.name == y.name ==> x == y
  }

  /** Dropping an index by name. */
  function Without(indexes: seq<Index>, name: string): seq<Index> {
    Filter((x: Index) => x.name != Some(name), indexes)
  }

  lemma WithoutMembers(indexes: seq<Index>, name: string)
    ensures forall x :: x in Without(indexes, name) <==> x in indexes && x.name != Some(name)
  {
    FilterMembers((x: Index) => x.name != Some(name), indexes);
  }

  /** Creating a target satisfies it, and changes nothing about the others or about the legacy index. */
  lemma CreatedFindings(indexes: seq<Index>, t: Target, u: Target)
    requires t in TARGETS && u in TARGETS && DistinctNames(indexes) && FindingOf(indexes, t) == ToCreate
    requires FindingOf(indexes, u) == ToCreate || FindingOf(indexes, u) == Satisfied
    ensures var after := indexes + [Created(t)];
            && DistinctNames(after)
            && FindingOf(after, u) == (if u == t then Satisfied else FindingOf(indexes, u))
            && forall name :: LegacyName(after, name) <==> LegacyName(indexes, name)
  {}

  /** A legacy index is no target, so dropping it by its name leaves every target in force. */
  lemma DroppedFindings(indexes: seq<Index>, name: string, t: Target)
    requires t in TARGETS && DistinctNames(indexes) && LegacyName(indexes, name) && Has(indexes, t)
    ensures Has(Without(indexes, name), t)
  {
    WithoutMembers(indexes, name);
    var x :| x in indexes && Matches(x, t);
    var y :| y in indexes && IsLegacy(y) && y.name == Some(name);
    assert |CURRENT.key| == 3 && |GROUP_VERSION.key| == 3 && |LEGACY_KEY| == 2;
    assert x != y;
    assert x in Without(indexes, name);
  }

  lemma DroppedNames(indexes: seq<Index>, name: string)
    requires DistinctNames(indexes) && LegacyName(indexes, name)
    ensures DistinctNames(Without(indexes, name))
    ensures forall n :: LegacyName(Without(indexes, name), n) <==> LegacyName(indexes, n) && n != name
  {
    WithoutMembers(indexes, name);
  }

  lemma CreateProtects(indexes: seq<Index>, t: Target)
    requires Protected(indexes)
    ensures Protected(indexes + [Created(t)])
  {}

  /** All targets are there, and exactly these legacy indexes still are. */
  ghost predicate StillToDrop(indexes: seq<Index>, pending: set<string>) {
    DistinctNames(indexes) && AllThere(indexes) && forall name :: name in pending <==> LegacyName(indexes, name)
  }

  /** Dropping one legacy index. */
  lemma DropStep(indexes: seq<Index>, pending: set<string>, name: string)
    requires StillToDrop(indexes, pending) && name in pending
    ensures LegacyName(indexes, name)
    ensures StillToDrop(Without(indexes, name), pending - {name}) && Protected(Without(indexes, name))
  {
    DroppedFindings(indexes, name, VERSION_ONE);
    DroppedFindings(indexes, name, CURRENT);
    DroppedFindings(indexes, name, GROUP_VERSION);
    DroppedNames(indexes, name);
    AllThereProtects(Without(indexes, name));
  }

  /** How the targets stand when the first `k` of them have been seen to. */
  ghost predicate Progress(indexes: seq<Index>, k: nat, satisfied: set<Target>)
    requires k <= |TARGETS|
  {
    && (forall i :: 0 <= i < k ==> FindingOf(indexes, TARGETS[i]) == Satisfied)
    && (forall i :: k <= i < |TARGETS|
                    ==> FindingOf(indexes, TARGETS[i]) == if TARGETS[i] in satisfied then Satisfied else ToCreate)
  }

  /** Creating the target whose turn it is. */
  lemma CreateStep(indexes: seq<Index>, k: nat, satisfied: set<Target>)
    requires k < |TARGETS| && Progress(indexes, k, satisfied) && DistinctNames(indexes) && TARGETS[k] !in satisfied
    ensures var after := indexes + [Created(TARGETS[k])];
            DistinctNames(after) && Progress(after, k + 1, satisfied) && !NameTaken(indexes, TARGETS[k].name)
  {
    forall i | 0 <= i < |TARGETS| && i != k
      ensures FindingOf(indexes + [Created(TARGETS[k])], TARGETS[i]) == FindingOf(indexes, TARGETS[i])
    {
      CreatedFindings(indexes, TARGETS[k], TARGETS[i]);
      assert TARGETS[i] != TARGETS[k];
    }
    CreatedFindings(indexes, TARGETS[k], TARGETS[k]);
  }

  lemma ProgressDone(indexes: seq<Index>, satisfied: set<Target>)
    requires Progress(indexes, |TARGETS|, satisfied)
    ensures AllThere(indexes)
  {
    assert FindingOf(indexes, TARGETS[0]) == Satisfied && FindingOf(indexes, TARGETS[1]) == Satisfied
           && FindingOf(indexes, TARGETS[2]) == Satisfied;
  }

  ghost predicate AllThere(indexes: seq<Index>) {
    Has(indexes, VERSION_ONE) && Has(indexes, CURRENT) && Has(indexes, GROUP_VERSION)
  }

  lemma AllThereProtects(indexes: seq<Index>)
    requires AllThere(indexes)
    ensures Protected(indexes) && IndexesReady(indexes)
    ensures forall t :: t in TARGETS ==> FindingOf(indexes, t) == Satisfied
  {}

  lemma CarriedIds(rows: seq<Row>)
    requires DistinctIds(rows)
    ensures DistinctIds(CarryAll(rows))
  {}

  /** Which target indexes are in force. */
  function ForcedBy(indexes: seq<Index>): Forced {
    Forced(exists x :: x in indexes && Matches(x, VERSION_ONE),
           exists x :: x in indexes && Matches(x, CURRENT),
           exists x :: x in indexes && Matches(x, GROUP_VERSION))
  }

  function ForcedWith(t: Target): Forced {
    Forced(t == VERSION_ONE, t == CURRENT, t == GROUP_VERSION)
  }

  lemma TargetsDiffer()
    ensures |CURRENT.key| == 3 && |GROUP_VERSION.key| == 3 && |LEGACY_KEY| == 2
            && CURRENT.partial != GROUP_VERSION.partial
  {}

  lemma CreatedForces(indexes: seq<Index>, t: Target)
    requires t in TARGETS
    ensures var f, g, h := ForcedBy(indexes), ForcedWith(t), ForcedBy(indexes + [Created(t)]);
            h == Forced(f.one || g.one, f.current || g.current, f.number || g.number)
  {
    TargetsDiffer();
    assert forall x :: x in indexes + [Created(t)] <==> x in indexes || x == Created(t);
    assert Matches(Created(t), t);
    assert t != VERSION_ONE ==> !Matches(Created(t), VERSION_ONE);
    assert t != CURRENT ==> !Matches(Created(t), CURRENT);
    assert t != GROUP_VERSION ==> !Matches(Created(t), GROUP_VERSION);
  }

  lemma UniqueUnderBoth(rows: seq<Row>, f: Forced, g: Forced)
    ensures UniqueUnder(rows, Forced(f.one || g.one, f.current || g.current, f.number || g.number))
            <==> UniqueUnder(rows, f) && UniqueUnder(rows, g)
  {
    var h := Forced(f.one || g.one, f.current || g.current, f.number || g.number);
    assert forall i, j ::
        0 <= i < j < |rows|
        ==> (Clash(rows[i], rows[j], h) <==> Clash(rows[i], rows[j], f) || Clash(rows[i], rows[j], g));
  }

  lemma MeetsEach(rows: seq<Row>, t: Target)
    requires t in TARGETS && MeetsIndexes(rows)
    ensures UniqueUnder(rows, ForcedWith(t))
  {
    assert forall a: Row, b: Row :: Clash(a, b, ForcedWith(t)) ==> Clash(a, b, ALL_FORCED);
  }

  /** Nothing but additions. */
  ghost predicate Keeps(before: seq<Index>, after: seq<Index>) {
    forall x :: x in before ==> x in after
  }

  // ----- the whole migration

  datatype Outcome =
    | Inspected(ready: bool) | WrongDatabase | NotReady | WriteRefused | DataChanged | BuildRefused
    | LegacyRowsRemain | IndexesMissing | PostconditionFailed | Migrated

  lemma BackfillComesTo(rows: seq<Row>, f: Forced)
    requires Clean(rows) && DistinctIds(rows) && UniqueUnder(rows, f)
    ensures var w := WriteUnder(rows, Operations(rows), f);
            && (w.None? <==> !UniqueUnder(CarryAll(rows), f))
            && (w.Some?
               ==> w.value.rows == CarryAll(rows) && (w.value.matched == |Operations(rows)| <==> NoneStuck(rows)))
    ensures Operations(rows) == [] ==> CarryAll(rows) == rows && NoneStuck(rows)
  {
    BackfillFills(rows);
    AllMatchedIff(rows);
    BackfillIsRefusedIff(rows, f);
    if Operations(rows) == [] {
      assert CarryAll(rows) == WriteAll(rows, []).rows == rows;
    }
  }

  /** What the migration of a database nobody else writes to comes to. */
  ghost function OutcomeFor(rows: seq<Row>, indexes: seq<Index>): Outcome {
    if !(Clean(rows) && IndexesReady(indexes)) then NotReady
    else if !UniqueUnder(CarryAll(rows), ForcedBy(indexes)) then WriteRefused
    else if !NoneStuck(rows) then DataChanged
    else if !TwinsApart(rows) then BuildRefused
    else Migrated
  }

  /** Each outcome with its exact condition. */
  lemma OutcomeMeans(rows: seq<Row>, indexes: seq<Index>)
    ensures var o := OutcomeFor(rows, indexes);
            var ready := Clean(rows) && forall t :: t in TARGETS ==> FindingOf(indexes, t) in {Satisfied, ToCreate};
            var kept := UniqueUnder(CarryAll(rows), ForcedBy(indexes));
            && (o == NotReady <==> !ready) && (o == WriteRefused <==> ready && !kept)
            && (o == DataChanged <==> ready && kept && exists i :: 0 <= i < |rows| && Stuck(rows[i]))
            && (o == Migrated <==> ready && kept && TwinsApart(rows) && forall i :: 0 <= i < |rows| ==> !Stuck(rows[i]))
            && o in {NotReady, WriteRefused, DataChanged, BuildRefused, Migrated}
  {}

  /** Without ids that read alike there is one way for a clean table to fail. */
  lemma WithoutTwinsOnlyStuckRowsFail(rows: seq<Row>, indexes: seq<Index>)
    requires DistinctIds(rows) && UniqueUnder(rows, ForcedBy(indexes)) && Clean(rows) && IndexesReady(indexes)
             && NoneStuck(rows)
    requires forall i, j :: 0 <= i < j < |rows| ==> !Twins(rows[i], rows[j])
    ensures OutcomeFor(rows, indexes) == Migrated
  {
    CarriedMeetsIndexesIff(rows);
    assert forall a: Row, b: Row :: Clash(a, b, ForcedBy(indexes)) ==> Clash(a, b, ALL_FORCED);
  }

  class RulesCollection {
    var rows: seq<Row>
    var indexes: seq<Index>
    /** Every state the indexes went through. */
    ghost var passed: seq<seq<Index>>

    constructor (rows: seq<Row>, indexes: seq<Index>)
      ensures this.rows == rows && this.indexes == indexes && passed == [indexes]
    {
      this.rows, this.indexes, passed := rows, indexes, [indexes];
    }

    /** What the database itself guarantees. */
    ghost predicate Valid()
      reads this
    {
      && DistinctIds(rows) && UniqueUnder(rows, ForcedBy(indexes))
      && DistinctNames(indexes) && passed != [] && passed[|passed| - 1] == indexes
    }

    /** At every moment so far one unique index on tenant and key was in force. */
    ghost predicate AlwaysProtected()
      reads this
    {
      forall i :: 0 <= i < |passed| ==> Protected(passed[i])
    }

    /** The database builds a unique index exactly when no two rows clash in it. */
    method CreateIndex(t: Target) returns (built: bool)
      requires Valid() && t in TARGETS && !NameTaken(indexes, t.name)
      modifies `indexes, `passed
      ensures built <==> UniqueUnder(rows, ForcedWith(t))
      ensures if built then indexes == old(indexes) + [Created(t)] && passed == old(passed) + [indexes]
              else indexes == old(indexes) && passed == old(passed)
      ensures UniqueUnder(rows, ForcedBy(indexes))
    {
      built := UniqueUnder(rows, ForcedWith(t));
      if built {
        CreatedForces(indexes, t);
        UniqueUnderBoth(rows, ForcedBy(indexes), ForcedWith(t));
        indexes := indexes + [Created(t)];
        passed := passed + [indexes];
      }
    }

    method DropIndex(name: string, ghost pending: set<string>)
      requires StillToDrop(indexes, pending) && name in pending && passed != []
      modifies `indexes, `passed
      ensures indexes == Without(old(indexes), name) && passed == old(passed) + [indexes]
      ensures StillToDrop(indexes, pending - {name})
      ensures old(AlwaysProtected()) ==> AlwaysProtected()
    {
      DropStep(indexes, pending, name);
      indexes := Without(indexes, name);
      passed := passed + [indexes];
    }

    /** Every missing target is created, one after the other, until one is refused. */
    method CreateTargets(satisfied: set<Target>) returns (ok: bool)
      requires Valid() && Progress(indexes, 0, satisfied)
      modifies `indexes, `passed
      ensures Valid() && Keeps(old(indexes), indexes)
      ensures ok ==> AllThere(indexes)
      ensures !ok ==> !MeetsIndexes(rows)
      ensures old(AlwaysProtected()) ==> AlwaysProtected()
    {
      for k := 0 to |TARGETS|
        invariant Valid() && Progress(indexes, k, satisfied) && Keeps(old(indexes), indexes)
        invariant old(AlwaysProtected()) ==> AlwaysProtected()
      {
        if TARGETS[k] !in satisfied {
          CreateStep(indexes, k, satisfied);
          if old(AlwaysProtected()) {
            assert Protected(passed[|passed| - 1]);
            CreateProtects(indexes, TARGETS[k]);
          }
          if MeetsIndexes(rows) { MeetsEach(rows, TARGETS[k]); }
          var built := CreateIndex(TARGETS[k]);
          if !built { return false; }
        }
      }
      ProgressDone(indexes, satisfied);
      ok := true;
    }

    /** Every legacy index is dropped by its name. */
    method DropLegacy(names: set<string>)
      requires StillToDrop(indexes, names) && passed != [] && passed[|passed| - 1] == indexes
      modifies `indexes, `passed
      ensures StillToDrop(indexes, {}) && passed != [] && passed[|passed| - 1] == indexes
      ensures old(AlwaysProtected()) ==> AlwaysProtected()
    {
      var pending := names;
      while pending != {}
        invariant StillToDrop(indexes, pending) && passed != [] && passed[|passed| - 1] == indexes
        invariant old(AlwaysProtected()) ==> AlwaysProtected()
        decreases pending
      {
        var name :| name in pending;
        DropIndex(name, pending);
        pending := pending - {name};
      }
    }

    /** Looking at the rows and the indexes without changing them. */
    method InspectAll() returns (ready: bool, operations: seq<Operation>, plan: Plan)
      ensures ready <==> Clean(rows) && IndexesReady(indexes)
      ensures operations == Operations(rows)
      ensures forall name :: name in plan.legacyNames <==> LegacyName(indexes, name)
      ensures ready ==> Progress(indexes, 0, plan.satisfied)
      ensures forall t :: t in plan.create <==> t in TARGETS && FindingOf(indexes, t) == ToCreate
    {
      var total, versioned, issues;
      total, versioned, operations, issues := PlanRuleBackfill(rows);
      plan := PlanRuleIndexes(indexes);
      ready := issues == {} && plan.issues == {};
    }

    /** The index steps, on a table with nothing left to backfill. */
    method ReplaceIndexes() returns (outcome: Outcome)
      requires Valid() && Clean(rows) && Operations(rows) == [] && IndexesReady(indexes)
      modifies `indexes, `passed
      ensures Valid()
      ensures outcome == if MeetsIndexes(rows) then Migrated else BuildRefused
      ensures outcome == Migrated ==> StillToDrop(indexes, {})
      ensures outcome == BuildRefused ==> Keeps(old(indexes), indexes)
      ensures old(AlwaysProtected()) ==> AlwaysProtected()
    {
      var ready, operations, plan := InspectAll();
      if !ready { return NotReady; }
      if operations != [] { return LegacyRowsRemain; }
      var ok := CreateTargets(plan.satisfied);
      if !ok { return BuildRefused; }
      AllThereProtects(indexes);
      assert ForcedBy(indexes) == ALL_FORCED;
      ready, operations, plan := InspectAll();
      if !ready { return NotReady; }
      if operations != [] { return LegacyRowsRemain; }
      if plan.create != {} { return IndexesMissing; }
      DropLegacy(plan.legacyNames);
      AllThereProtects(indexes);
      assert ForcedBy(indexes) == ALL_FORCED;
      ready, operations, plan := InspectAll();
      if !ready { return NotReady; }
      if operations != [] || plan.create != {} || plan.legacyNames != {} { return PostconditionFailed; }
      return Migrated;
    }

    /** The backfill as a step of the migration: nothing is planned, or all of it is written, or none. */
    method BackfillRows(operations: seq<Operation>) returns (refusal: Option<Outcome>)
      requires Valid() && Clean(rows) && IndexesReady(indexes) && operations == Operations(rows)
      modifies `rows
      ensures Valid()
      ensures refusal == if !UniqueUnder(CarryAll(old(rows)), ForcedBy(indexes)) then Some(WriteRefused)
                         else if !NoneStuck(old(rows)) then Some(DataChanged)
                         else None
      ensures rows == if refusal.None? then CarryAll(old(rows)) else old(rows)
    {
      BackfillComesTo(rows, ForcedBy(indexes));
      CarriedIds(rows);
      if operations != [] {
        var stored, finish := Backfill(rows, operations, ForcedBy(indexes));
        match finish
        case Duplicate => return Some(WriteRefused);
        case Short => return Some(DataChanged);
        case Stored => rows := stored;
      }
      return None;
    }

    /**
     * The migration. With no one else writing it refuses before it has changed anything, but for one case: an index
     * that rows with ids reading alike keep from being built, where the rows are backfilled and no index is gone. When
     * it goes through, the table is clean and backfilled, all three unique indexes are in force and the legacy one is
     * gone; and tenant and key were never unprotected in between if they were protected to begin with.
     */
    method Migrate(apply: bool, rightDatabase: bool) returns (outcome: Outcome)
      requires Valid()
      modifies this
      ensures Valid()
      ensures outcome == if !apply then Inspected(Clean(old(rows)) && IndexesReady(old(indexes)))
                         else if !rightDatabase then WrongDatabase
                         else OutcomeFor(old(rows), old(indexes))
      ensures outcome == Migrated
              ==> rows == CarryAll(old(rows)) && Clean(rows) && MeetsIndexes(rows) && Operations(rows) == []
      ensures outcome == Migrated ==> StillToDrop(indexes, {})
      ensures outcome == BuildRefused ==> rows == CarryAll(old(rows)) && Keeps(old(indexes), indexes)
      ensures outcome != Migrated && outcome != BuildRefused ==> rows == old(rows) && indexes == old(indexes)
      ensures old(AlwaysProtected()) ==> AlwaysProtected()
    {
      var ready, operations, plan := InspectAll();
      if !apply { return Inspected(ready); }
      if !rightDatabase { return WrongDatabase; }
      if !ready { return NotReady; }
      BackfillFills(rows);
      BackfillIsSound(rows);
      var refusal := BackfillRows(operations);
      if refusal.Some? { return refusal.value; }
      outcome := ReplaceIndexes();
    }
  }
}
