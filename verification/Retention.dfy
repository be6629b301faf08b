/**
 * The retention sweep (src/modules/retention/service.ts): flag what is past its window, and after a grace period reduce
 * it (free plan) or archive and reduce it (paid plan). An assessment's id is its position; `details` stands for
 * everything the reduction removes. Times are milliseconds.
 */
module Retention {
  import opened Prelude

  const DAY := 86400 * 1000
  const DEFAULT_GRACE_DAYS := 7

  datatype Mode = Reduced | Archived

  datatype Retention =
    Retention(flaggedAt: Option<int>, enforcedAt: Option<int>, auditedAt: Option<int>, mode: Option<Mode>)

  datatype Decision = Decision(kind: string, byUserId: string, detail: Option<string>)

  datatype Doc = Doc(
    tenant: nat,
    requestor: string,
    createdAt: int,
    closed: bool,
    classification: Option<string>,
    duration: Option<int>,
    decision: Option<Decision>,
    details: Option<string>,
    retention: Retention)

  datatype Archive = Archive(document: Doc, messages: seq<string>)

  /** The audit entry of an enforcement: its mode, the messages removed, and whether it completed an earlier one. */
  datatype Note = Note(mode: Mode, removed: nat, reconciled: bool)

  /** Assessments, their live transcripts, cold storage, and each assessment's retention entries in the audit log. */
  datatype World = World(docs: seq<Doc>, messages: seq<seq<string>>, archives: map<nat, Archive>, notes: seq<seq<Note>>)

  datatype Tenant = Tenant(id: nat, paid: bool, assessmentDays: int)

  predicate Shaped(w: World) {
    |w.docs| == |w.messages| == |w.notes| && forall i :: i in w.archives ==> i < |w.docs|
  }

  // ----- the two stages

  predicate PastWindow(d: Doc, t: Tenant, now: int) {
    d.tenant == t.id && d.closed && d.createdAt < now - t.assessmentDays * DAY
  }

  predicate ToFlag(d: Doc, t: Tenant, now: int) {
    PastWindow(d, t, now) && d.retention.flaggedAt.None? && d.retention.enforcedAt.None?
  }

  predicate Due(d: Doc, t: Tenant, now: int, grace: int) {
    && PastWindow(d, t, now)
    && d.retention.flaggedAt.Some? && d.retention.flaggedAt.value <= now - grace * DAY
    && d.retention.auditedAt.None?
  }

  function Flagged(d: Doc, t: Tenant, now: int): Doc {
    if ToFlag(d, t, now) then d.(retention := d.retention.(flaggedAt := Some(now))) else d
  }

  function FlagAll(w: World, t: Tenant, now: int): (r: World)
    ensures |r.docs| == |w.docs| && r.messages == w.messages && r.archives == w.archives && r.notes == w.notes
  {
    w.(docs := seq(|w.docs|, i requires 0 <= i < |w.docs| => Flagged(w.docs[i], t, now)))
  }

  function CountToFlag(docs: seq<Doc>, t: Tenant, now: int): nat {
    if docs == [] then 0
    else CountToFlag(docs[..|docs| - 1], t, now) + if ToFlag(docs[|docs| - 1], t, now) then 1 else 0
  }

  predicate Repairing(d: Doc) {
    d.retention.enforcedAt.Some?
  }

  function ModeOf(d: Doc, t: Tenant): Mode {
    if d.retention.mode.Some? then d.retention.mode.value else if t.paid then Archived else Reduced
  }

  /** A half-enforced assessment whose cold archive is missing: the sweep stops there. */
  predicate CannotReconcile(w: World, i: nat, t: Tenant)
    requires i < |w.docs|
  {
    ModeOf(w.docs[i], t) == Archived && Repairing(w.docs[i]) && i !in w.archives
  }

  /** Only who asked, the risk type, the times and the bare decision are kept. */
  function Reduce(d: Doc): Doc {
    d.(details := None, decision := if d.decision.Some? then Some(d.decision.value.(detail := None)) else None)
  }

  function EnforcedDoc(d: Doc, t: Tenant, now: int): Doc {
    var r := d.retention.(enforcedAt := if Repairing(d) then d.retention.enforcedAt else Some(now),
                          auditedAt := Some(now), mode := Some(ModeOf(d, t)));
    Reduce(d).(retention := r)
  }

  /** Cold storage is written once: an archive that is there already is left alone. */
  function ArchivesAfter(w: World, i: nat, t: Tenant): map<nat, Archive>
    requires Shaped(w) && i < |w.docs|
  {
    if ModeOf(w.docs[i], t) == Archived && !Repairing(w.docs[i]) && i !in w.archives
    then w.archives[i := Archive(w.docs[i], w.messages[i])]
    else w.archives
  }

  predicate HasNote(notes: seq<Note>, mode: Mode) {
    exists n :: n in notes && n.mode == mode
  }

  /** An enforcement is recorded, unless it completes one that has been. */
  function NotesAfter(w: World, i: nat, t: Tenant): seq<Note>
    requires Shaped(w) && i < |w.docs|
  {
    var d := w.docs[i];
    if Repairing(d) && HasNote(w.notes[i], ModeOf(d, t)) then w.notes[i]
    else w.notes[i] + [Note(ModeOf(d, t), |w.messages[i]|, Repairing(d))]
  }

  function Enforce(w: World, i: nat, t: Tenant, now: int): (r: World)
    requires Shaped(w) && i < |w.docs|
    ensures Shaped(r) && |r.docs| == |w.docs|
  {
    World(w.docs[i := EnforcedDoc(w.docs[i], t, now)], w.messages[i := []], ArchivesAfter(w, i, t),
          w.notes[i := NotesAfter(w, i, t)])
  }

  datatype Progress = Progress(world: World, failed: bool, reduced: nat, archived: nat, removed: nat)

  /** The sweep over the first `n` assessments. */
  function EnforceUpTo(w: World, t: Tenant, now: int, grace: int, n: nat): (p: Progress)
    requires Shaped(w) && n <= |w.docs|
    ensures Shaped(p.world) && |p.world.docs| == |w.docs|
  {
    if n == 0 then Progress(w, false, 0, 0, 0)
    else
      var p := EnforceUpTo(w, t, now, grace, n - 1);
      var i := n - 1;
      if p.failed || !Due(p.world.docs[i], t, now, grace) then p
      else if CannotReconcile(p.world, i, t) then p.(failed := true)
      else Progress(Enforce(p.world, i, t, now), false, p.reduced + 1,
                    p.archived + (if ModeOf(p.world.docs[i], t) == Archived then 1 else 0),
                    p.removed + |p.world.messages[i]|)
  }

  function Sweep(w: World, t: Tenant, now: int, grace: int): (p: Progress)
    requires Shaped(w)
    ensures Shaped(p.world) && |p.world.docs| == |w.docs|
  {
    EnforceUpTo(FlagAll(w, t, now), t, now, grace, |w.docs|)
  }

  // ----- what a sweep does to one assessment

  /** The assessment is due and cannot be reconciled. */
  predicate Stops(w: World, i: nat, t: Tenant, now: int, grace: int)
    requires i < |w.docs|
  {
    Due(w.docs[i], t, now, grace) && CannotReconcile(w, i, t)
  }

  /** The first of `n` assessments that stops the sweep, or `n`. */
  function StopAt(w: World, t: Tenant, now: int, grace: int, n: nat): (k: nat)
    requires n <= |w.docs|
    ensures k <= n
  {
    if n == 0 then 0
    else
      var k := StopAt(w, t, now, grace, n - 1);
      if k < n - 1 then k else if Stops(w, n - 1, t, now, grace) then n - 1 else n
  }

  /** What is stored of assessment `i` in `r` is what it was in `w`. */
  ghost predicate Untouched(w: World, r: World, i: nat)
    requires Shaped(w) && Shaped(r) && |r.docs| == |w.docs| && i < |w.docs|
  {
    && r.docs[i] == w.docs[i] && r.messages[i] == w.messages[i] && r.notes[i] == w.notes[i]
    && (i in r.archives <==> i in w.archives) && (i in w.archives ==> r.archives[i] == w.archives[i])
  }

  /** What is stored of assessment `i` in `r` is its enforcement. */
  ghost predicate EnforcedIn(w: World, r: World, i: nat, t: Tenant, now: int)
    requires Shaped(w) && Shaped(r) && |r.docs| == |w.docs| && i < |w.docs|
  {
    && r.docs[i] == EnforcedDoc(w.docs[i], t, now) && r.messages[i] == [] && r.notes[i] == NotesAfter(w, i, t)
    && (i in r.archives <==> i in ArchivesAfter(w, i, t))
    && (i in r.archives ==> r.archives[i] == ArchivesAfter(w, i, t)[i])
  }

  ghost predicate SweptAt(w: World, r: World, i: nat, t: Tenant, now: int, grace: int, stop: nat)
    requires Shaped(w) && Shaped(r) && |r.docs| == |w.docs| && i < |w.docs|
  {
    if i < stop && Due(w.docs[i], t, now, grace) then EnforcedIn(w, r, i, t, now) else Untouched(w, r, i)
  }

  /** `k` is the first of `n` assessments that stops the sweep; `n` when there is none. */
  ghost predicate FirstStop(w: World, t: Tenant, now: int, grace: int, n: nat, k: nat)
    requires n <= |w.docs|
  {
    && k <= n && (k < n ==> Stops(w, k, t, now, grace))
    && forall i :: 0 <= i < k ==> !Stops(w, i, t, now, grace)
  }

  /** The sweep has come to `stop`: everything due before it is enforced, and the rest is as it was. */
  ghost predicate Enforced(w: World, p: Progress, t: Tenant, now: int, grace: int, n: nat, stop: nat)
    requires Shaped(w) && n <= |w.docs|
  {
    && FirstStop(w, t, now, grace, n, stop) && (p.failed <==> stop < n)
    && Shaped(p.world) && |p.world.docs| == |w.docs|
    && forall i :: 0 <= i < |w.docs| ==> SweptAt(w, p.world, i, t, now, grace, stop)
  }

  /**
   * In closed form: exactly the due assessments before the first one that is due and cannot be reconciled are enforced,
   * and the others are as they were.
   */
  lemma {:induction false} EnforceExact(w: World, t: Tenant, now: int, grace: int, n: nat)
    requires Shaped(w) && n <= |w.docs|
    ensures Enforced(w, EnforceUpTo(w, t, now, grace, n), t, now, grace, n, StopAt(w, t, now, grace, n))
  {
    if n > 0 {
      EnforceExact(w, t, now, grace, n - 1);
      EnforceStep(w, t, now, grace, n);
    }
  }

  lemma StopStep(w: World, t: Tenant, now: int, grace: int, n: nat)
    requires 0 < n <= |w.docs| && FirstStop(w, t, now, grace, n - 1, StopAt(w, t, now, grace, n - 1))
    ensures FirstStop(w, t, now, grace, n, StopAt(w, t, now, grace, n))
  {}

  lemma EnforceStep(w: World, t: Tenant, now: int, grace: int, n: nat)
    requires Shaped(w) && 0 < n <= |w.docs|
    requires Enforced(w, EnforceUpTo(w, t, now, grace, n - 1), t, now, grace, n - 1, StopAt(w, t, now, grace, n - 1))
    ensures Enforced(w, EnforceUpTo(w, t, now, grace, n), t, now, grace, n, StopAt(w, t, now, grace, n))
  {
    var before := EnforceUpTo(w, t, now, grace, n - 1).world;
    var stop := StopAt(w, t, now, grace, n - 1);
    assert SweptAt(w, before, n - 1, t, now, grace, stop);
    StopStep(w, t, now, grace, n);
    var p := EnforceUpTo(w, t, now, grace, n);
    forall i | 0 <= i < |w.docs| ensures SweptAt(w, p.world, i, t, now, grace, StopAt(w, t, now, grace, n)) {
      assert SweptAt(w, before, i, t, now, grace, stop);
    }
  }

  /** After a sweep each assessment is flagged or not, and then enforced or not, on its own account. */
  ghost predicate SweptFrom(w: World, r: World, i: nat, t: Tenant, now: int, grace: int, stop: nat)
    requires Shaped(w) && Shaped(r) && |r.docs| == |w.docs| && i < |w.docs|
  {
    SweptAt(FlagAll(w, t, now), r, i, t, now, grace, stop)
  }

  function SweepStop(w: World, t: Tenant, now: int, grace: int): nat {
    StopAt(FlagAll(w, t, now), t, now, grace, |w.docs|)
  }

  lemma SweepExact(w: World, t: Tenant, now: int, grace: int)
    requires Shaped(w)
    ensures var p, stop := Sweep(w, t, now, grace), SweepStop(w, t, now, grace);
            && FirstStop(FlagAll(w, t, now), t, now, grace, |w.docs|, stop)
            && (p.failed <==> stop < |w.docs|)
            && forall i :: 0 <= i < |w.docs| ==> SweptFrom(w, p.world, i, t, now, grace, stop)
  {
    EnforceExact(FlagAll(w, t, now), t, now, grace, |w.docs|);
    var p, stop := Sweep(w, t, now, grace), SweepStop(w, t, now, grace);
    forall i | 0 <= i < |w.docs| ensures SweptFrom(w, p.world, i, t, now, grace, stop) {
      assert SweptAt(FlagAll(w, t, now), p.world, i, t, now, grace, stop);
    }
  }

  // ----- never early, and once is enough

  /**
   * Nothing is flagged inside its window, and nothing is enforced before both the window and the grace period are over.
   */
  lemma NeverEarly(w: World, t: Tenant, now: int, grace: int, i: nat)
    requires Shaped(w) && i < |w.docs|
    ensures var d, e := w.docs[i], Sweep(w, t, now, grace).world.docs[i];
            && (e.retention.flaggedAt != d.retention.flaggedAt
               ==> PastWindow(d, t, now) && e.retention.flaggedAt == Some(now))
            && (e.retention.auditedAt != d.retention.auditedAt
                ==> PastWindow(d, t, now) && e.retention.flaggedAt.Some?
                    && e.retention.flaggedAt.value <= now - grace * DAY)
            && (e.details != d.details ==> e.retention.auditedAt != d.retention.auditedAt)
  {
    SweepExact(w, t, now, grace);
    assert SweptFrom(w, Sweep(w, t, now, grace).world, i, t, now, grace, SweepStop(w, t, now, grace));
  }

  lemma NothingToFlag(w: World, t: Tenant, now: int, grace: int)
    requires Shaped(w)
    ensures var r := Sweep(w, t, now, grace).world; FlagAll(r, t, now) == r
  {
    SweepExact(w, t, now, grace);
    var r := Sweep(w, t, now, grace).world;
    forall i | 0 <= i < |r.docs| ensures !ToFlag(r.docs[i], t, now) {
      assert SweptFrom(w, r, i, t, now, grace, SweepStop(w, t, now, grace));
    }
    assert FlagAll(r, t, now).docs == r.docs;
  }

  lemma {:induction false} NothingDueBefore(w: World, t: Tenant, now: int, grace: int, n: nat, k: nat)
    requires Shaped(w) && k <= n <= |w.docs|
    requires forall i :: 0 <= i < k ==> !Due(w.docs[i], t, now, grace)
    requires k < n ==> Due(w.docs[k], t, now, grace) && CannotReconcile(w, k, t)
    ensures EnforceUpTo(w, t, now, grace, n).world == w && (EnforceUpTo(w, t, now, grace, n).failed <==> k < n)
  {
    if k == n {
      NothingFails(w, t, now, grace, n);
    } else if k < n - 1 {
      NothingDueBefore(w, t, now, grace, n - 1, k);
    } else {
      NothingFails(w, t, now, grace, n - 1);
    }
  }

  lemma {:induction false} NothingFails(w: World, t: Tenant, now: int, grace: int, n: nat)
    requires Shaped(w) && n <= |w.docs| && forall i :: 0 <= i < n ==> !Due(w.docs[i], t, now, grace)
    ensures EnforceUpTo(w, t, now, grace, n) == Progress(w, false, 0, 0, 0)
  {
    if n > 0 {
      NothingFails(w, t, now, grace, n - 1);
    }
  }

  /** A second sweep at the same moment changes no assessment, no message and no archive, even after a failed one. */
  lemma SweepIsIdempotent(w: World, t: Tenant, now: int, grace: int)
    requires Shaped(w)
    ensures var r := Sweep(w, t, now, grace).world; Sweep(r, t, now, grace).world == r
  {
    var r := Sweep(w, t, now, grace).world;
    var stop := SweepStop(w, t, now, grace);
    SweepExact(w, t, now, grace);
    NothingToFlag(w, t, now, grace);
    forall i | 0 <= i < stop ensures !Due(r.docs[i], t, now, grace) {
      assert SweptFrom(w, r, i, t, now, grace, stop);
    }
    if stop < |w.docs| {
      assert SweptFrom(w, r, stop, t, now, grace, stop);
    }
    NothingDueBefore(r, t, now, grace, |r.docs|, stop);
  }

  // ----- what every run keeps

  /** Nothing removable is left of the assessment. */
  predicate Bare(w: World, i: nat)
    requires Shaped(w) && i < |w.docs|
  {
    && w.docs[i].details == None && w.messages[i] == []
    && (w.docs[i].decision.Some? ==> w.docs[i].decision.value.detail == None)
  }

  /**
   * A closed assessment carries a human decision; one that was enforced has a mode; cold storage holds exactly the
   * archived ones, each with whatever is still live of its transcript; the audit log has no entry of an assessment that
   * was not enforced, and one of each whose enforcement is complete, with its mode; and of such a one nothing that the
   * reduction removes is left.
   */
  predicate Kept(w: World, i: nat)
    requires Shaped(w) && i < |w.docs|
  {
    var d := w.docs[i];
    && (d.closed ==> d.decision.Some?)
    && (d.retention.enforcedAt.Some? <==> d.retention.mode.Some?)
    && (d.retention.auditedAt.Some? ==> d.retention.enforcedAt.Some?)
    && (i in w.archives <==> d.retention.mode == Some(Archived))
    && (i in w.archives ==> forall m :: m in w.messages[i] ==> m in w.archives[i].messages)
    && |w.notes[i]| <= 1 && (w.notes[i] != [] ==> d.retention.mode == Some(w.notes[i][0].mode))
    && (d.retention.auditedAt.Some? ==> w.notes[i] != [] && Bare(w, i))
  }

  ghost predicate Inv(w: World) {
    Shaped(w) && forall i :: 0 <= i < |w.docs| ==> Kept(w, i)
  }

  lemma FlagKeeps(w: World, t: Tenant, now: int)
    requires Inv(w)
    ensures Inv(FlagAll(w, t, now))
  {
    var r := FlagAll(w, t, now);
    forall i | 0 <= i < |r.docs| ensures Kept(r, i) {
      assert Kept(w, i);
    }
  }

  lemma KeptReconciles(w: World, i: nat, t: Tenant)
    requires Shaped(w) && i < |w.docs| && Kept(w, i)
    ensures !CannotReconcile(w, i, t)
  {}

  lemma NeverStops(w: World, t: Tenant, now: int, grace: int)
    requires Inv(w)
    ensures SweepStop(w, t, now, grace) == |w.docs|
  {
    FlagKeeps(w, t, now);
    SweepExact(w, t, now, grace);
    var f, stop := FlagAll(w, t, now), SweepStop(w, t, now, grace);
    if stop < |w.docs| {
      KeptReconciles(f, stop, t);
    }
  }

  /** A sweep of a world in order never fails, and leaves it in order. */
  lemma SweepKeepsInv(w: World, t: Tenant, now: int, grace: int)
    requires Inv(w)
    ensures Inv(Sweep(w, t, now, grace).world) && !Sweep(w, t, now, grace).failed
  {
    FlagKeeps(w, t, now);
    NeverStops(w, t, now, grace);
    SweepExact(w, t, now, grace);
    var f, r := FlagAll(w, t, now), Sweep(w, t, now, grace).world;
    forall i | 0 <= i < |r.docs| ensures Kept(r, i) {
      assert Kept(f, i) && SweptFrom(w, r, i, t, now, grace, SweepStop(w, t, now, grace));
    }
  }

  /** Every message of an archived assessment is live or in cold storage. */
  predicate MessageHeld(w: World, i: nat, m: string)
    requires Shaped(w) && i < |w.docs|
  {
    m in w.messages[i] || (i in w.archives && m in w.archives[i].messages)
  }

  /** A sweep loses a message only of an assessment it reduces without archiving; archives are never rewritten. */
  lemma SweepLosesNothingArchived(w: World, t: Tenant, now: int, grace: int, i: nat, m: string)
    requires Inv(w) && i < |w.docs| && MessageHeld(w, i, m)
    ensures var r := Sweep(w, t, now, grace).world;
            && (MessageHeld(r, i, m)
               || (r.docs[i].retention.mode == Some(Reduced) && w.docs[i].retention.auditedAt.None?))
            && (i in w.archives ==> i in r.archives && r.archives[i] == w.archives[i])
  {
    FlagKeeps(w, t, now);
    SweepExact(w, t, now, grace);
    var f, r := FlagAll(w, t, now), Sweep(w, t, now, grace).world;
    assert Kept(w, i) && Kept(f, i) && SweptFrom(w, r, i, t, now, grace, SweepStop(w, t, now, grace));
  }

  /** What cold storage receives is the assessment as it stood, with its whole live transcript. */
  lemma ArchiveIsComplete(w: World, t: Tenant, now: int, grace: int, i: nat)
    requires Inv(w) && i < |w.docs| && i !in w.archives && i in Sweep(w, t, now, grace).world.archives
    ensures Sweep(w, t, now, grace).world.archives[i] == Archive(Flagged(w.docs[i], t, now), w.messages[i])
  {
    SweepExact(w, t, now, grace);
    assert SweptFrom(w, Sweep(w, t, now, grace).world, i, t, now, grace, SweepStop(w, t, now, grace));
  }

  /** An enforcement leaves exactly one entry in the audit log, with its mode; a new one tells what it removed. */
  lemma EnforcementIsRecorded(w: World, t: Tenant, now: int, grace: int, i: nat)
    requires Inv(w) && i < |w.docs|
    ensures var r := Sweep(w, t, now, grace).world;
            var d, e := w.docs[i], r.docs[i];
            if e.retention.auditedAt == d.retention.auditedAt then r.notes[i] == w.notes[i]
            else |r.notes[i]| == 1 && e.retention.mode == Some(r.notes[i][0].mode)
                 && (d.retention.enforcedAt.None? ==> r.notes[i][0] == Note(ModeOf(d, t), |w.messages[i]|, false))
                 && (w.notes[i] != [] ==> r.notes[i] == w.notes[i])
  {
    SweepKeepsInv(w, t, now, grace);
    SweepExact(w, t, now, grace);
    var r := Sweep(w, t, now, grace).world;
    assert Kept(w, i) && Kept(r, i) && SweptFrom(w, r, i, t, now, grace, SweepStop(w, t, now, grace));
  }

  /** The fields the reduction must spare. */
  predicate SparedFields(d: Doc, e: Doc) {
    && e.tenant == d.tenant && e.requestor == d.requestor && e.createdAt == d.createdAt && e.closed == d.closed
    && e.classification == d.classification && e.duration == d.duration
    && (e.decision.Some? <==> d.decision.Some?)
    && (d.decision.Some?
       ==> e.decision.value.kind == d.decision.value.kind && e.decision.value.byUserId == d.decision.value.byUserId)
  }

  lemma SweepSpares(w: World, t: Tenant, now: int, grace: int, i: nat)
    requires Shaped(w) && i < |w.docs|
    ensures var e := Sweep(w, t, now, grace).world.docs[i];
            SparedFields(w.docs[i], e) && (e.details == w.docs[i].details || e.details.None?)
  {
    SweepExact(w, t, now, grace);
    assert SweptFrom(w, Sweep(w, t, now, grace).world, i, t, now, grace, SweepStop(w, t, now, grace));
  }

  // ----- what a sweep leaves of each assessment

  /** Closed, and created more than the tenant's days ago. */
  predicate IsOld(d: Doc, t: Tenant, now: int) {
    d.tenant == t.id && d.closed && d.createdAt + t.assessmentDays * 86400000 < now
  }

  /** Flagged by now: before, or in this sweep. */
  function FlaggedAt(d: Doc, t: Tenant, now: int): Option<int> {
    if IsOld(d, t, now) && d.retention.flaggedAt == None && d.retention.enforcedAt == None then Some(now)
    else d.retention.flaggedAt
  }

  /** Old, flagged for the whole grace period, and not yet done with. */
  predicate IsDue(d: Doc, t: Tenant, now: int, grace: int) {
    && IsOld(d, t, now) && d.retention.auditedAt == None
    && FlaggedAt(d, t, now).Some? && FlaggedAt(d, t, now).value + grace * 86400000 <= now
  }

  /** How the assessment is reduced: as was recorded when that began, else as the tenant's plan has it. */
  function Way(d: Doc, t: Tenant): Mode {
    match d.retention.mode
    case Some(mode) => mode
    case None => if t.paid then Archived else Reduced
  }

  /** The assessment is due, was archived before, and its archive is gone. */
  predicate Blocks(w: World, i: nat, t: Tenant, now: int, grace: int) {
    && i < |w.docs| && IsDue(w.docs[i], t, now, grace)
    && Way(w.docs[i], t) == Archived && w.docs[i].retention.enforcedAt.Some? && i !in w.archives
  }

  /** What is left: who asked, the risk type, the times, and of a decision its kind and who made it. */
  ghost predicate ReducedTo(d: Doc, e: Doc, t: Tenant, now: int) {
    && e.tenant == d.tenant && e.requestor == d.requestor && e.createdAt == d.createdAt && e.closed == d.closed
    && e.classification == d.classification && e.duration == d.duration && e.details == None
    && (d.decision == None ==> e.decision == None)
    && (forall x :: d.decision == Some(x) ==> e.decision == Some(Decision(x.kind, x.byUserId, None)))
    && e.retention == Retention(FlaggedAt(d, t, now),
                                if d.retention.enforcedAt.Some? then d.retention.enforcedAt else Some(now),
                                Some(now), Some(Way(d, t)))
  }

  /** A due assessment is reduced, its transcript removed, and archived first if that is its way. */
  ghost predicate TakenAt(w: World, r: World, i: nat, t: Tenant, now: int)
    requires Shaped(w) && Shaped(r) && |r.docs| == |w.docs| && i < |w.docs|
  {
    var d := w.docs[i];
    && ReducedTo(d, r.docs[i], t, now) && Bare(r, i)
    && (i in r.archives <==> i in w.archives || Way(d, t) == Archived)
    && (i in w.archives ==> r.archives[i] == w.archives[i])
    && (i !in w.archives && Way(d, t) == Archived ==>
          r.archives[i]
          == Archive(d.(retention := d.retention.(flaggedAt := FlaggedAt(d, t, now))), w.messages[i]))
    && (if d.retention.enforcedAt.Some? && exists n :: n in w.notes[i] && n.mode == Way(d, t)
        then r.notes[i] == w.notes[i]
        else r.notes[i] == w.notes[i] + [Note(Way(d, t), |w.messages[i]|, d.retention.enforcedAt.Some?)])
  }

  /** Any other is at most flagged. */
  ghost predicate LeftAt(w: World, r: World, i: nat, t: Tenant, now: int)
    requires Shaped(w) && Shaped(r) && |r.docs| == |w.docs| && i < |w.docs|
  {
    && r.docs[i] == w.docs[i].(retention := w.docs[i].retention.(flaggedAt := FlaggedAt(w.docs[i], t, now)))
    && r.messages[i] == w.messages[i] && r.notes[i] == w.notes[i]
    && (i in r.archives <==> i in w.archives) && (i in w.archives ==> r.archives[i] == w.archives[i])
  }

  ghost predicate SweptAsDue(w: World, r: World, t: Tenant, now: int, grace: int) {
    && Shaped(w) && Shaped(r) && |r.docs| == |w.docs|
    && forall i :: 0 <= i < |w.docs| ==> SweptOneAsDue(w, r, i, t, now, grace)
  }

  ghost predicate SweptOneAsDue(w: World, r: World, i: nat, t: Tenant, now: int, grace: int)
    requires Shaped(w) && Shaped(r) && |r.docs| == |w.docs| && i < |w.docs|
  {
    if IsDue(w.docs[i], t, now, grace) && forall j: nat :: j <= i ==> !Blocks(w, j, t, now, grace)
    then TakenAt(w, r, i, t, now) else LeftAt(w, r, i, t, now)
  }

  lemma DueMeans(w: World, i: nat, t: Tenant, now: int, grace: int)
    requires Shaped(w) && i < |w.docs|
    ensures var f := FlagAll(w, t, now);
            && f.docs[i] == w.docs[i].(retention := w.docs[i].retention.(flaggedAt := FlaggedAt(w.docs[i], t, now)))
            && (Due(f.docs[i], t, now, grace) <==> IsDue(w.docs[i], t, now, grace))
            && (Stops(f, i, t, now, grace) <==> Blocks(w, i, t, now, grace))
  {}

  lemma StopMeans(w: World, i: nat, t: Tenant, now: int, grace: int)
    requires Shaped(w) && i < |w.docs|
    ensures i < SweepStop(w, t, now, grace) <==> forall j: nat :: j <= i ==> !Blocks(w, j, t, now, grace)
  {
    SweepExact(w, t, now, grace);
    var f, stop := FlagAll(w, t, now), SweepStop(w, t, now, grace);
    forall j: nat | j < |w.docs| ensures Stops(f, j, t, now, grace) <==> Blocks(w, j, t, now, grace) {
      DueMeans(w, j, t, now, grace);
    }
    if stop <= i {
      assert Stops(f, stop, t, now, grace);
    }
  }

  /**
   * A sweep takes exactly the due assessments before the first that blocks it, and leaves nothing removable of them; it
   * fails exactly when there is one that does.
   */
  lemma SweepMeans(w: World, t: Tenant, now: int, grace: int)
    requires Shaped(w)
    ensures SweptAsDue(w, Sweep(w, t, now, grace).world, t, now, grace)
    ensures Sweep(w, t, now, grace).failed <==> exists i: nat :: Blocks(w, i, t, now, grace)
  {
    SweepExact(w, t, now, grace);
    var r, stop := Sweep(w, t, now, grace).world, SweepStop(w, t, now, grace);
    forall i | 0 <= i < |w.docs| ensures SweptOneAsDue(w, r, i, t, now, grace) {
      DueMeans(w, i, t, now, grace);
      StopMeans(w, i, t, now, grace);
      assert SweptFrom(w, r, i, t, now, grace, stop);
    }
    if stop < |w.docs| {
      DueMeans(w, stop, t, now, grace);
    } else {
      forall i: nat ensures !Blocks(w, i, t, now, grace) {
        if i < |w.docs| { StopMeans(w, i, t, now, grace); }
      }
    }
  }

  /**
   * How many of the first `n` assessments a sweep has flagged, taken, and of those archived; and the messages removed.
   */
  ghost function FlaggedIn(w: World, r: World, n: nat): nat
    requires n <= |w.docs| == |r.docs|
  {
    if n == 0 then 0
    else FlaggedIn(w, r, n - 1)
         + if r.docs[n - 1].retention.flaggedAt != w.docs[n - 1].retention.flaggedAt then 1 else 0
  }

  predicate Taken(d: Doc, e: Doc) {
    e.retention.auditedAt != d.retention.auditedAt
  }

  ghost function TakenIn(w: World, r: World, n: nat): nat
    requires n <= |w.docs| == |r.docs|
  {
    if n == 0 then 0 else TakenIn(w, r, n - 1) + if Taken(w.docs[n - 1], r.docs[n - 1]) then 1 else 0
  }

  ghost function ArchivedIn(w: World, r: World, n: nat): nat
    requires n <= |w.docs| == |r.docs|
  {
    if n == 0 then 0
    else ArchivedIn(w, r, n - 1)
         + if Taken(w.docs[n - 1], r.docs[n - 1]) && r.docs[n - 1].retention.mode == Some(Archived) then 1 else 0
  }

  ghost function RemovedIn(w: World, r: World, n: nat): nat
    requires n <= |w.docs| == |r.docs| && Shaped(w)
  {
    if n == 0 then 0
    else RemovedIn(w, r, n - 1) + if Taken(w.docs[n - 1], r.docs[n - 1]) then |w.messages[n - 1]| else 0
  }

  lemma {:induction false} CountsAgree(w: World, r: World, u: World, n: nat)
    requires Shaped(w) && n <= |w.docs| == |r.docs| == |u.docs| && forall i :: 0 <= i < n ==> r.docs[i] == u.docs[i]
    ensures TakenIn(w, r, n) == TakenIn(w, u, n) && ArchivedIn(w, r, n) == ArchivedIn(w, u, n)
            && RemovedIn(w, r, n) == RemovedIn(w, u, n)
  {
    if n > 0 {
      CountsAgree(w, r, u, n - 1);
    }
  }

  lemma {:induction false} NotYetReached(w: World, t: Tenant, now: int, grace: int, n: nat)
    requires Shaped(w) && n <= |w.docs|
    ensures var r := EnforceUpTo(w, t, now, grace, n).world;
            forall i :: n <= i < |w.docs| ==> r.docs[i] == w.docs[i] && r.messages[i] == w.messages[i]
  {
    if n > 0 {
      NotYetReached(w, t, now, grace, n - 1);
    }
  }

  /** The counters after the first `n` assessments. */
  ghost predicate Counted(w: World, p: Progress, n: nat)
    requires Shaped(w) && n <= |w.docs| == |p.world.docs|
  {
    && p.reduced == TakenIn(w, p.world, n) && p.archived == ArchivedIn(w, p.world, n)
    && p.removed == RemovedIn(w, p.world, n)
  }

  lemma CountedStep(w: World, p: Progress, t: Tenant, now: int, n: nat)
    requires Shaped(w) && Shaped(p.world) && 0 < n <= |w.docs| == |p.world.docs| && Counted(w, p, n - 1)
    requires p.world.docs[n - 1] == w.docs[n - 1] && p.world.messages[n - 1] == w.messages[n - 1]
    ensures Counted(w, p, n)
    ensures w.docs[n - 1].retention.auditedAt == None ==>
              Counted(w, Progress(Enforce(p.world, n - 1, t, now), false, p.reduced + 1,
                                  p.archived + (if ModeOf(w.docs[n - 1], t) == Archived then 1 else 0),
                                  p.removed + |w.messages[n - 1]|), n)
  {
    CountsAgree(w, p.world, Enforce(p.world, n - 1, t, now), n - 1);
  }

  lemma {:induction false} ProgressMeans(w: World, t: Tenant, now: int, grace: int, n: nat)
    requires Shaped(w) && n <= |w.docs|
    ensures Counted(w, EnforceUpTo(w, t, now, grace, n), n)
  {
    if n > 0 {
      ProgressMeans(w, t, now, grace, n - 1);
      NotYetReached(w, t, now, grace, n - 1);
      CountedStep(w, EnforceUpTo(w, t, now, grace, n - 1), t, now, n);
    }
  }

  lemma {:induction false} FlaggingMeans(w: World, r: World, t: Tenant, now: int, n: nat)
    requires Shaped(w) && n <= |w.docs| == |r.docs|
    requires forall i :: 0 <= i < n ==> r.docs[i].retention.flaggedAt == FlaggedAt(w.docs[i], t, now)
    ensures FlaggedIn(w, r, n) == CountToFlag(w.docs[..n], t, now)
  {
    if n > 0 {
      FlaggingMeans(w, r, t, now, n - 1);
      assert w.docs[..n][..n - 1] == w.docs[..n - 1];
    }
  }

  lemma {:induction false} FlagsAside(w: World, f: World, r: World, n: nat)
    requires Shaped(w) && Shaped(f) && n <= |w.docs| == |f.docs| == |r.docs| && f.messages == w.messages
    requires forall i :: 0 <= i < n ==> f.docs[i].retention.auditedAt == w.docs[i].retention.auditedAt
    ensures TakenIn(f, r, n) == TakenIn(w, r, n) && ArchivedIn(f, r, n) == ArchivedIn(w, r, n)
            && RemovedIn(f, r, n) == RemovedIn(w, r, n)
  {
    if n > 0 {
      FlagsAside(w, f, r, n - 1);
    }
  }

  // ----- the run over all tenants

  datatype Outcome = Outcome(failed: bool, flagged: nat, reduced: nat, archived: nat, removed: nat)

  function OutcomeOf(w: World, t: Tenant, now: int, grace: int): Outcome
    requires Shaped(w)
  {
    var p := Sweep(w, t, now, grace);
    Outcome(p.failed, CountToFlag(w.docs, t, now), p.reduced, p.archived, p.removed)
  }

  lemma FlagsCounted(w: World, t: Tenant, now: int, grace: int)
    requires Shaped(w)
    ensures FlaggedIn(w, Sweep(w, t, now, grace).world, |w.docs|) == CountToFlag(w.docs, t, now)
  {
    var r, n := Sweep(w, t, now, grace).world, |w.docs|;
    SweepMeans(w, t, now, grace);
    forall i | 0 <= i < n ensures r.docs[i].retention.flaggedAt == FlaggedAt(w.docs[i], t, now) {
      assert SweptOneAsDue(w, r, i, t, now, grace);
    }
    FlaggingMeans(w, r, t, now, n);
    assert w.docs[..n] == w.docs;
  }

  /** The counters tell how many assessments were flagged, taken and archived, and how many messages removed. */
  lemma OutcomeMeans(w: World, t: Tenant, now: int, grace: int)
    requires Shaped(w)
    ensures var r, n := Sweep(w, t, now, grace).world, |w.docs|;
            OutcomeOf(w, t, now, grace)
            == Outcome(Sweep(w, t, now, grace).failed, FlaggedIn(w, r, n), TakenIn(w, r, n), ArchivedIn(w, r, n),
                       RemovedIn(w, r, n))
  {
    var f := FlagAll(w, t, now);
    ProgressMeans(f, t, now, grace, |w.docs|);
    FlagsAside(w, f, Sweep(w, t, now, grace).world, |w.docs|);
    FlagsCounted(w, t, now, grace);
  }

  /** The tenants are swept one after the other; a tenant whose sweep fails does not stop the next. */
  function SweepAll(w: World, ts: seq<Tenant>, now: int, grace: int): (r: World)
    requires Shaped(w)
    ensures Shaped(r) && |r.docs| == |w.docs|
  {
    if ts == [] then w else Sweep(SweepAll(w, ts[..|ts| - 1], now, grace), ts[|ts| - 1], now, grace).world
  }

  function OutcomesOf(w: World, ts: seq<Tenant>, now: int, grace: int): seq<Outcome>
    requires Shaped(w)
  {
    if ts == [] then []
    else
      var before := ts[..|ts| - 1];
      OutcomesOf(w, before, now, grace) + [OutcomeOf(SweepAll(w, before, now, grace), ts[|ts| - 1], now, grace)]
  }

  ghost predicate DistinctTenants(ts: seq<Tenant>) {
    forall i, j :: 0 <= i < j < |ts| ==> ts[i].id != ts[j].id
  }

  /**
   * The two worlds store the same of assessment `i` if it belongs to the tenant, and otherwise agree on whose it is.
   */
  ghost predicate SameFor(w: World, r: World, tenant: nat, i: nat)
    requires Shaped(w) && Shaped(r) && |r.docs| == |w.docs| && i < |w.docs|
  {
    w.docs[i].tenant == r.docs[i].tenant && (w.docs[i].tenant == tenant ==> Untouched(w, r, i))
  }

  ghost predicate SameForTenant(w: World, r: World, tenant: nat) {
    Shaped(w) && Shaped(r) && |r.docs| == |w.docs| && forall i :: 0 <= i < |w.docs| ==> SameFor(w, r, tenant, i)
  }

  lemma SameForTenantOnwards(w: World, r: World, u: World, tenant: nat)
    requires SameForTenant(w, r, tenant) && SameForTenant(r, u, tenant)
    ensures SameForTenant(w, u, tenant)
  {
    forall i | 0 <= i < |w.docs| ensures SameFor(w, u, tenant, i) {
      assert SameFor(w, r, tenant, i) && SameFor(r, u, tenant, i);
    }
  }

  /** A sweep leaves the assessments of every other tenant alone. */
  lemma SweepSparesOthers(w: World, t: Tenant, now: int, grace: int, other: nat)
    requires Shaped(w) && other != t.id
    ensures SameForTenant(w, Sweep(w, t, now, grace).world, other)
  {
    SweepExact(w, t, now, grace);
    var r := Sweep(w, t, now, grace).world;
    forall i | 0 <= i < |w.docs| ensures SameFor(w, r, other, i) {
      assert SweptFrom(w, r, i, t, now, grace, SweepStop(w, t, now, grace));
    }
  }

  lemma {:induction false} SameStop(w: World, r: World, t: Tenant, now: int, grace: int, n: nat)
    requires SameForTenant(w, r, t.id) && n <= |w.docs|
    ensures StopAt(FlagAll(w, t, now), t, now, grace, n) == StopAt(FlagAll(r, t, now), t, now, grace, n)
  {
    if n > 0 {
      SameStop(w, r, t, now, grace, n - 1);
      assert SameFor(w, r, t.id, n - 1);
    }
  }

  /** A tenant's sweep reads only what is stored of its own assessments. */
  lemma SweepReadsItsOwn(w: World, r: World, t: Tenant, now: int, grace: int)
    requires SameForTenant(w, r, t.id)
    ensures SameForTenant(Sweep(w, t, now, grace).world, Sweep(r, t, now, grace).world, t.id)
  {
    SameStop(w, r, t, now, grace, |w.docs|);
    SweepExact(w, t, now, grace);
    SweepExact(r, t, now, grace);
    var v, u := Sweep(w, t, now, grace).world, Sweep(r, t, now, grace).world;
    var stop := SweepStop(w, t, now, grace);
    forall i | 0 <= i < |w.docs| ensures SameFor(v, u, t.id, i) {
      assert SameFor(w, r, t.id, i) && SweptFrom(w, v, i, t, now, grace, stop)
             && SweptFrom(r, u, i, t, now, grace, stop);
    }
  }

  lemma SameForItself(w: World, tenant: nat)
    requires Shaped(w)
    ensures SameForTenant(w, w, tenant)
  {
    forall i | 0 <= i < |w.docs| ensures SameFor(w, w, tenant, i) {}
  }

  lemma {:induction false} SweepAllSparesOthers(w: World, ts: seq<Tenant>, now: int, grace: int, other: nat)
    requires Shaped(w) && forall k :: 0 <= k < |ts| ==> ts[k].id != other
    ensures SameForTenant(w, SweepAll(w, ts, now, grace), other)
  {
    if ts == [] {
      SameForItself(w, other);
    } else {
      var n := |ts| - 1;
      SweepAllSparesOthers(w, ts[..n], now, grace, other);
      SweepSparesOthers(SweepAll(w, ts[..n], now, grace), ts[n], now, grace, other);
      SameForTenantOnwards(w, SweepAll(w, ts[..n], now, grace), SweepAll(w, ts, now, grace), other);
    }
  }

  /**
   * However many tenants are swept in a run, and whichever of their sweeps fail, each tenant's assessments end up as if
   * it alone had been swept.
   */
  lemma {:induction false} TenantsAreIndependent(w: World, ts: seq<Tenant>, now: int, grace: int, k: nat)
    requires Shaped(w) && DistinctTenants(ts) && k < |ts|
    ensures SameForTenant(Sweep(w, ts[k], now, grace).world, SweepAll(w, ts, now, grace), ts[k].id)
  {
    var n := |ts| - 1;
    var before := SweepAll(w, ts[..n], now, grace);
    if k == n {
      SweepAllSparesOthers(w, ts[..n], now, grace, ts[n].id);
      SweepReadsItsOwn(w, before, ts[n], now, grace);
    } else {
      TenantsAreIndependent(w, ts[..n], now, grace, k);
      SweepSparesOthers(before, ts[n], now, grace, ts[k].id);
      SameForTenantOnwards(Sweep(w, ts[k], now, grace).world, before, SweepAll(w, ts, now, grace), ts[k].id);
    }
  }

  /** Nothing is left to do for the tenant at this moment. */
  ghost predicate Settled(w: World, t: Tenant, now: int, grace: int)
    requires Shaped(w)
  {
    Sweep(w, t, now, grace).world == w
  }

  lemma UntouchedEverywhere(w: World, r: World)
    requires Shaped(w) && Shaped(r) && |r.docs| == |w.docs|
    requires forall i :: 0 <= i < |w.docs| ==> Untouched(w, r, i)
    ensures r == w
  {
    forall i | 0 <= i < |w.docs|
      ensures r.docs[i] == w.docs[i] && r.messages[i] == w.messages[i] && r.notes[i] == w.notes[i]
    {
      assert Untouched(w, r, i);
    }
    forall i: nat ensures i in r.archives <==> i in w.archives {
      if i < |w.docs| { assert Untouched(w, r, i); }
    }
    forall i | i in w.archives ensures r.archives[i] == w.archives[i] {
      assert Untouched(w, r, i);
    }
    assert r.docs == w.docs && r.messages == w.messages && r.archives == w.archives && r.notes == w.notes;
  }

  lemma SettledStays(w: World, r: World, t: Tenant, now: int, grace: int)
    requires SameForTenant(w, r, t.id) && Settled(w, t, now, grace)
    ensures Settled(r, t, now, grace)
  {
    SweepReadsItsOwn(w, r, t, now, grace);
    SweepExact(r, t, now, grace);
    var u := Sweep(r, t, now, grace).world;
    forall i | 0 <= i < |r.docs| ensures Untouched(r, u, i) {
      assert SweptFrom(r, u, i, t, now, grace, SweepStop(r, t, now, grace));
      assert SameFor(w, r, t.id, i) && SameFor(w, u, t.id, i);
    }
    UntouchedEverywhere(r, u);
  }

  lemma AllSettled(w: World, ts: seq<Tenant>, now: int, grace: int, k: nat)
    requires Shaped(w) && DistinctTenants(ts) && k < |ts|
    ensures Settled(SweepAll(w, ts, now, grace), ts[k], now, grace)
  {
    TenantsAreIndependent(w, ts, now, grace, k);
    SweepIsIdempotent(w, ts[k], now, grace);
    SettledStays(Sweep(w, ts[k], now, grace).world, SweepAll(w, ts, now, grace), ts[k], now, grace);
  }

  lemma {:induction false} NothingLeftToDo(w: World, ts: seq<Tenant>, now: int, grace: int)
    requires Shaped(w) && forall k :: 0 <= k < |ts| ==> Settled(w, ts[k], now, grace)
    ensures SweepAll(w, ts, now, grace) == w
  {
    if ts != [] {
      NothingLeftToDo(w, ts[..|ts| - 1], now, grace);
      assert Settled(w, ts[|ts| - 1], now, grace);
    }
  }

  /** A second run over all tenants at the same moment changes nothing, whichever sweeps of the first failed. */
  lemma RunIsIdempotent(w: World, ts: seq<Tenant>, now: int, grace: int)
    requires Shaped(w) && DistinctTenants(ts)
    ensures var r := SweepAll(w, ts, now, grace); SweepAll(r, ts, now, grace) == r
  {
    var r := SweepAll(w, ts, now, grace);
    forall k | 0 <= k < |ts| ensures Settled(r, ts[k], now, grace) {
      AllSettled(w, ts, now, grace, k);
    }
    NothingLeftToDo(r, ts, now, grace);
  }

  // ----- the dry run

  /** What the dry run counts: it flags nothing first, and goes by the plan rather than by the recorded mode. */
  function DryUpTo(w: World, t: Tenant, now: int, grace: int, n: nat): Outcome
    requires Shaped(w) && n <= |w.docs|
  {
    if n == 0 then Outcome(false, CountToFlag(w.docs, t, now), 0, 0, 0)
    else
      var o := DryUpTo(w, t, now, grace, n - 1);
      if !Due(w.docs[n - 1], t, now, grace) then o
      else o.(reduced := o.reduced + 1, archived := o.archived + (if t.paid then 1 else 0),
        removed := o.removed + |w.messages[n - 1]|)
  }

  function DryRun(w: World, t: Tenant, now: int, grace: int): Outcome
    requires Shaped(w)
  {
    DryUpTo(w, t, now, grace, |w.docs|)
  }

  /** The half-enforced assessment is due, and its mode is not the one the plan would give it now. */
  predicate PlanChanged(d: Doc, t: Tenant, now: int, grace: int) {
    Due(d, t, now, grace) && ModeOf(d, t) != if t.paid then Archived else Reduced
  }

  function CountPlanChanged(docs: seq<Doc>, t: Tenant, now: int, grace: int): nat {
    if docs == [] then 0
    else
      CountPlanChanged(docs[..|docs| - 1], t, now, grace)
      + if PlanChanged(docs[|docs| - 1], t, now, grace) then 1 else 0
  }

  lemma {:induction false} NoneCounted(docs: seq<Doc>, t: Tenant, now: int, grace: int)
    ensures CountPlanChanged(docs, t, now, grace) == 0
            <==> forall i :: 0 <= i < |docs| ==> !PlanChanged(docs[i], t, now, grace)
  {
    if docs != [] {
      NoneCounted(docs[..|docs| - 1], t, now, grace);
    }
  }

  /** No assessment that is due changed its plan after it was half-enforced. */
  ghost predicate ModesFollowPlan(w: World, t: Tenant, now: int, grace: int) {
    forall i :: 0 <= i < |w.docs| ==> !PlanChanged(w.docs[i], t, now, grace)
  }

  /**
   * The run's progress over the first `n` assessments and the dry run's count of them tally: where nothing is flagged
   * and enforced at once they differ only in the archived ones, and there by those whose plan changed, always the same
   * way.
   */
  ghost predicate Tallies(w: World, t: Tenant, now: int, grace: int, n: nat)
    requires Shaped(w) && n <= |w.docs|
  {
    var p, o := EnforceUpTo(FlagAll(w, t, now), t, now, grace, n), DryUpTo(w, t, now, grace, n);
    var changed := CountPlanChanged(w.docs[..n], t, now, grace);
    && !p.failed && !o.failed && o.flagged == CountToFlag(w.docs, t, now)
    && (grace > 0 || CountToFlag(w.docs[..n], t, now) == 0
        ==> && p.reduced == o.reduced && p.removed == o.removed
            && if t.paid then o.archived == p.archived + changed else p.archived == o.archived + changed)
    && (grace <= 0 ==> p.reduced == o.reduced + CountToFlag(w.docs[..n], t, now))
  }

  lemma FlaggingMakesDue(d: Doc, t: Tenant, now: int, grace: int)
    requires d.retention.auditedAt.Some? ==> d.retention.enforcedAt.Some?
    ensures Due(Flagged(d, t, now), t, now, grace) <==> Due(d, t, now, grace) || (grace <= 0 && ToFlag(d, t, now))
    ensures ModeOf(Flagged(d, t, now), t) == ModeOf(d, t)
  {}

  /** What the sweep meets when it comes to assessment `n`. */
  lemma StillAsFlagged(w: World, t: Tenant, now: int, grace: int, n: nat)
    requires Inv(w) && n < |w.docs|
    ensures var f := FlagAll(w, t, now); var p := EnforceUpTo(f, t, now, grace, n).world;
            p.docs[n] == Flagged(w.docs[n], t, now) && p.messages[n] == w.messages[n] && !CannotReconcile(p, n, t)
  {
    var f := FlagAll(w, t, now);
    FlagKeeps(w, t, now);
    EnforceExact(f, t, now, grace, n);
    assert SweptAt(f, EnforceUpTo(f, t, now, grace, n).world, n, t, now, grace, StopAt(f, t, now, grace, n));
    assert Kept(f, n);
  }

  lemma TallyStep(w: World, t: Tenant, now: int, grace: int, n: nat)
    requires Shaped(w) && 0 < n <= |w.docs| && Tallies(w, t, now, grace, n - 1)
    requires var p := EnforceUpTo(FlagAll(w, t, now), t, now, grace, n - 1).world;
             && p.docs[n - 1] == Flagged(w.docs[n - 1], t, now) && p.messages[n - 1] == w.messages[n - 1]
             && !CannotReconcile(p, n - 1, t)
    requires w.docs[n - 1].retention.auditedAt.Some? ==> w.docs[n - 1].retention.enforcedAt.Some?
    ensures Tallies(w, t, now, grace, n)
  {
    var d := w.docs[n - 1];
    FlaggingMakesDue(d, t, now, grace);
    assert w.docs[..n][..n - 1] == w.docs[..n - 1];
    assert CountToFlag(w.docs[..n], t, now)
           == CountToFlag(w.docs[..n - 1], t, now) + if ToFlag(d, t, now) then 1 else 0;
    assert CountPlanChanged(w.docs[..n], t, now, grace)
           == CountPlanChanged(w.docs[..n - 1], t, now, grace) + if PlanChanged(d, t, now, grace) then 1 else 0;
  }

  lemma {:induction false} DryRunTallies(w: World, t: Tenant, now: int, grace: int, n: nat)
    requires Inv(w) && n <= |w.docs|
    ensures Tallies(w, t, now, grace, n)
  {
    if n > 0 {
      DryRunTallies(w, t, now, grace, n - 1);
      StillAsFlagged(w, t, now, grace, n - 1);
      assert Kept(w, n - 1);
      TallyStep(w, t, now, grace, n);
    }
  }

  /**
   * A dry run foretells the whole outcome of a run exactly when the grace period is positive or nothing is to be
   * flagged, and no plan changed under a half-enforced assessment. Without a grace period what is flagged is enforced
   * in the same run, so the reductions are foretold exactly under the first condition; the archived assessments then
   * exactly under the second.
   */
  lemma DryRunForetells(w: World, t: Tenant, now: int, grace: int)
    requires Inv(w)
    ensures var o, r := DryRun(w, t, now, grace), OutcomeOf(w, t, now, grace);
            && (o.reduced == r.reduced <==> grace > 0 || o.flagged == 0)
            && (grace > 0 || o.flagged == 0
                ==> o.(archived := r.archived) == r
                    && (o.archived == r.archived <==> ModesFollowPlan(w, t, now, grace)))
            && (o == r <==> (grace > 0 || o.flagged == 0) && ModesFollowPlan(w, t, now, grace))
  {
    DryRunTallies(w, t, now, grace, |w.docs|);
    assert w.docs[..|w.docs|] == w.docs;
    NoneCounted(w.docs, t, now, grace);
  }

  /**
   * An assessment that a free plan reduced, without the audit entry, when the tenant has moved to the paid plan since.
   */
  function HalfReduced(tenant: nat, at: int): World {
    var retention := Retention(Some(at), Some(at), None, Some(Reduced));
    World([Doc(tenant, "", at, true, None, None, Some(Decision("", "", None)), None, retention)], [[]], map[], [[]])
  }

  /** The failing input: the dry run counts it as an archiving to come, the run completes its reduction. */
  lemma PlanChangeMisleads(tenant: nat, days: nat, at: int, now: int)
    requires at < now - days * DAY && at <= now - DEFAULT_GRACE_DAYS * DAY
    ensures var w, t := HalfReduced(tenant, at), Tenant(tenant, true, days);
            && Inv(w)
            && DryRun(w, t, now, DEFAULT_GRACE_DAYS).archived == 1
            && OutcomeOf(w, t, now, DEFAULT_GRACE_DAYS).archived == 0
  {
    var w, t := HalfReduced(tenant, at), Tenant(tenant, true, days);
    assert Kept(w, 0);
    assert DryUpTo(w, t, now, DEFAULT_GRACE_DAYS, 0).archived == 0;
    assert EnforceUpTo(FlagAll(w, t, now), t, now, DEFAULT_GRACE_DAYS, 0).archived == 0;
    StillAsFlagged(w, t, now, DEFAULT_GRACE_DAYS, 0);
  }

  // ----- runs of the whole system

  /** Between sweeps assessments are opened, written to while they are not enforced, and closed with a decision. */
  datatype Op =
    | Opens(tenant: nat, requestor: string, at: int)
    | Says(id: nat, message: string)
    | Closes(id: nat, decision: Decision, details: string)
    | Sweeps(t: Tenant, now: int, grace: int)

  const NOT_RETAINED := Retention(None, None, None, None)

  function Step(w: World, op: Op): (r: World)
    requires Shaped(w)
    ensures Shaped(r) && |w.docs| <= |r.docs|
  {
    match op
    case Opens(tenant, requestor, at) =>
      World(w.docs + [Doc(tenant, requestor, at, false, None, None, None, None, NOT_RETAINED)], w.messages + [[]],
            w.archives, w.notes + [[]])
    case Says(id, message) =>
      if id < |w.docs| && !w.docs[id].closed then w.(messages := w.messages[id := w.messages[id] + [message]]) else w
    case Closes(id, decision, details) =>
      if id < |w.docs| && !w.docs[id].closed
      then w.(docs := w.docs[id := w.docs[id].(closed := true, decision := Some(decision), details := Some(details))])
      else w
    case Sweeps(t, now, grace) => Sweep(w, t, now, grace).world
  }

  function Run(ops: seq<Op>): (w: World)
    ensures Shaped(w)
  {
    if ops == [] then World([], [], map[], []) else Step(Run(ops[..|ops| - 1]), ops[|ops| - 1])
  }

  /** Only closed assessments are ever flagged or enforced. */
  ghost predicate OnlyClosedRetained(w: World) {
    forall i :: 0 <= i < |w.docs| ==> ClosedIfRetained(w.docs[i])
  }

  predicate ClosedIfRetained(d: Doc) {
    d.closed || d.retention == NOT_RETAINED
  }

  lemma StepKeepsInv(w: World, op: Op)
    requires Inv(w) && OnlyClosedRetained(w)
    ensures Inv(Step(w, op)) && OnlyClosedRetained(Step(w, op))
  {
    var r := Step(w, op);
    match op
    case Sweeps(t, now, grace) =>
      SweepKeepsInv(w, t, now, grace);
      SweepExact(w, t, now, grace);
      forall i | 0 <= i < |r.docs| ensures ClosedIfRetained(r.docs[i]) {
        assert ClosedIfRetained(w.docs[i]) && SweptFrom(w, r, i, t, now, grace, SweepStop(w, t, now, grace));
      }
    case _ =>
      forall i | 0 <= i < |r.docs| ensures Kept(r, i) && ClosedIfRetained(r.docs[i]) {
        if i < |w.docs| {
          assert Kept(w, i) && ClosedIfRetained(w.docs[i]);
        }
      }
  }

  /** Over every run of openings, messages, closings and sweeps the invariant holds, so no sweep ever fails. */
  lemma {:induction false} RunsKeepInv(ops: seq<Op>)
    ensures Inv(Run(ops)) && OnlyClosedRetained(Run(ops))
  {
    if ops != [] {
      RunsKeepInv(ops[..|ops| - 1]);
      StepKeepsInv(Run(ops[..|ops| - 1]), ops[|ops| - 1]);
    }
  }

  // ----- the sweep as the service runs it

  class RetentionStore {
    var docs: seq<Doc>
    var messages: seq<seq<string>>
    var archives: map<nat, Archive>
    var notes: seq<seq<Note>>

    constructor ()
      ensures Contents() == World([], [], map[], [])
    {
      docs, messages, archives, notes := [], [], map[], [];
    }

    function Contents(): World
      reads this
    {
      World(docs, messages, archives, notes)
    }

    method FlagOld(t: Tenant, now: int) returns (flagged: nat)
      requires Shaped(Contents())
      modifies `docs
      ensures Contents() == FlagAll(old(Contents()), t, now) && flagged == CountToFlag(old(docs), t, now)
    {
      var before := docs;
      flagged := 0;
      for i := 0 to |before|
        invariant |docs| == |before| && flagged == CountToFlag(before[..i], t, now)
        invariant forall j :: 0 <= j < |docs| ==> docs[j] == if j < i then Flagged(before[j], t, now) else before[j]
      {
        assert before[..i + 1][..i] == before[..i];
        if ToFlag(docs[i], t, now) {
          docs := docs[i := docs[i].(retention := docs[i].retention.(flaggedAt := Some(now)))];
          flagged := flagged + 1;
        }
      }
      assert before[..|before|] == before && docs == FlagAll(old(Contents()), t, now).docs;
    }

    /** One due assessment, in one transaction. */
    method EnforceOne(i: nat, t: Tenant, now: int) returns (archived: bool, removed: nat)
      requires Shaped(Contents()) && i < |docs| && !CannotReconcile(Contents(), i, t)
      modifies this
      ensures Contents() == Enforce(old(Contents()), i, t, now)
      ensures archived == (ModeOf(old(docs)[i], t) == Archived) && removed == |old(messages)[i]|
    {
      var doc := docs[i];
      var repairing := doc.retention.enforcedAt.Some?;
      var mode := ModeOf(doc, t);
      if mode == Archived && !repairing {
        if i !in archives { archives := archives[i := Archive(doc, messages[i])]; }
      }
      removed := |messages[i]|;
      messages := messages[i := []];
      var retention := doc.retention.(auditedAt := Some(now), mode := Some(mode));
      if !repairing { retention := retention.(enforcedAt := Some(now)); }
      docs := docs[i := Reduce(doc).(retention := retention)];
      if !repairing || !HasNote(notes[i], mode) { notes := notes[i := notes[i] + [Note(mode, removed, repairing)]]; }
      archived := mode == Archived;
    }

    /** Enforce what is due in order; a missing archive ends the tenant's sweep. */
    method EnforceDue(t: Tenant, now: int, grace: int) returns (failed: bool, reduced: nat, archived: nat, removed: nat)
      requires Shaped(Contents())
      modifies this
      ensures Progress(Contents(), failed, reduced, archived, removed)
              == EnforceUpTo(old(Contents()), t, now, grace, |old(docs)|)
    {
      ghost var start := Contents();
      failed, reduced, archived, removed := false, 0, 0, 0;
      for i := 0 to |docs|
        invariant |docs| == |start.docs| && Shaped(Contents()) && !failed
        invariant Progress(Contents(), failed, reduced, archived, removed) == EnforceUpTo(start, t, now, grace, i)
      {
        if Due(docs[i], t, now, grace) {
          if CannotReconcile(Contents(), i, t) {
            failed := true;
            FailureStays(start, t, now, grace, i + 1, |docs|);
            return;
          }
          var cold, gone := EnforceOne(i, t, now);
          if cold { archived := archived + 1; }
          reduced := reduced + 1;
          removed := removed + gone;
        }
      }
    }

    /** Flag, then enforce: exactly the due assessments before one that blocks the sweep are taken. */
    method SweepTenant(t: Tenant, now: int, grace: int)
      returns (failed: bool, flagged: nat, reduced: nat, archived: nat, removed: nat)
      requires Shaped(Contents())
      modifies this
      ensures Progress(Contents(), failed, reduced, archived, removed) == Sweep(old(Contents()), t, now, grace)
      ensures SweptAsDue(old(Contents()), Contents(), t, now, grace)
      ensures flagged == CountToFlag(old(docs), t, now)
    {
      SweepMeans(Contents(), t, now, grace);
      flagged := FlagOld(t, now);
      failed, reduced, archived, removed := EnforceDue(t, now, grace);
    }

    /** What a run would do, counted without doing it. */
    method Foretell(t: Tenant, now: int, grace: int) returns (o: Outcome)
      requires Shaped(Contents())
      ensures o == DryRun(Contents(), t, now, grace)
    {
      var flagged := 0;
      for i := 0 to |docs|
        invariant flagged == CountToFlag(docs[..i], t, now)
      {
        assert docs[..i + 1][..i] == docs[..i];
        if ToFlag(docs[i], t, now) { flagged := flagged + 1; }
      }
      assert docs[..|docs|] == docs;
      var reduced: nat, archived: nat, removed: nat := 0, 0, 0;
      for i := 0 to |docs|
        invariant Outcome(false, flagged, reduced, archived, removed) == DryUpTo(Contents(), t, now, grace, i)
      {
        if Due(docs[i], t, now, grace) {
          if t.paid { archived := archived + 1; }
          reduced := reduced + 1;
          removed := removed + |messages[i]|;
        }
      }
      o := Outcome(false, flagged, reduced, archived, removed);
    }

    /** The nightly run: every tenant in turn, whether or not the one before failed. */
    method SweepTenants(ts: seq<Tenant>, now: int, grace: int) returns (outcomes: seq<Outcome>)
      requires Shaped(Contents())
      modifies this
      ensures Contents() == SweepAll(old(Contents()), ts, now, grace)
      ensures outcomes == OutcomesOf(old(Contents()), ts, now, grace)
    {
      ghost var start := Contents();
      outcomes := [];
      for i := 0 to |ts|
        invariant Shaped(Contents()) && Contents() == SweepAll(start, ts[..i], now, grace)
        invariant outcomes == OutcomesOf(start, ts[..i], now, grace)
      {
        assert ts[..i + 1][..i] == ts[..i];
        var failed, flagged, reduced, archived, removed := SweepTenant(ts[i], now, grace);
        outcomes := outcomes + [Outcome(failed, flagged, reduced, archived, removed)];
      }
      assert ts[..|ts|] == ts;
    }
  }

  lemma {:induction false} FailureStays(w: World, t: Tenant, now: int, grace: int, m: nat, n: nat)
    requires Shaped(w) && m <= n <= |w.docs| && EnforceUpTo(w, t, now, grace, m).failed
    ensures EnforceUpTo(w, t, now, grace, n) == EnforceUpTo(w, t, now, grace, m)
    decreases n
  {
    if m < n {
      FailureStays(w, t, now, grace, m, n - 1);
    }
  }
}
