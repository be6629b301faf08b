/**
 * Logins at the same time (src/modules/auth/service.ts:83-178, src/lib/db.ts:45-64): each is a transaction on a
 * snapshot of the sessions, and its insertion succeeds only while no open session of the account holds the slot it
 * chose; a collision sends it back to a fresh snapshot, at most four attempts in all. A run is any interleaving of
 * these steps with each other and with requests, logouts and administrators.
 */
module SessionRaces {
  import opened Prelude
  import opened Sessions

  const ATTEMPTS := 4

  /** `began` is a history variable: how many sessions there were when the login began. */
  datatype Writer =
    | Waiting(who: SignIn, tenant: Tenant, began: nat, attempt: nat)
    | Ready(who: SignIn, tenant: Tenant, began: nat, attempt: nat, snapshot: Sessions, planned: Sessions)
    | LoggedIn(who: SignIn, tenant: Tenant, id: nat)
    | TurnedAway(who: SignIn, tenant: Tenant)
    | GaveUp(who: SignIn, tenant: Tenant, began: nat)

  datatype System = System(sessions: Sessions, writers: map<nat, Writer>)

  datatype Action =
    | Begin(w: nat, who: SignIn, tenant: Tenant)
    | Plan(w: nat, first: int, second: int)
    | TryCommit(w: nat)
    | Abort(w: nat)
    | Other(op: Op)

  const NOBODY := System([], map[])

  /** The writes of a plan on what the collection has become since: an ended session stays as it is. */
  function Ended(now: Sessions, snapshot: Sessions, planned: Sessions): (t: Sessions)
    ensures |t| == |now|
  {
    seq(|now|, i requires 0 <= i < |now| =>
      if i < |snapshot| && i < |planned| && snapshot[i].ended.None? && planned[i].ended.Some?
      then End(now[i], planned[i].ended.value) else now[i])
  }

  /** The unique index on the slots of open sessions. */
  predicate Collides(s: Sessions, x: Session) {
    exists i :: 0 <= i < |s| && Clash(s[i], x)
  }

  predicate Enabled(s: System, a: Action) {
    match a
    case Begin(w, _, _) => w !in s.writers
    case Plan(w, _, _) => w in s.writers && s.writers[w].Waiting?
    case TryCommit(w) => w in s.writers && s.writers[w].Ready? && s.writers[w].planned != []
    case Abort(w) => w in s.writers && s.writers[w].Ready?
    case Other(op) => !op.OpSignIn?
  }

  function AfterCollision(it: Writer): Writer
    requires it.Ready?
  {
    if it.attempt + 1 == ATTEMPTS then GaveUp(it.who, it.tenant, it.began)
    else Waiting(it.who, it.tenant, it.began, it.attempt + 1)
  }

  /** A transaction is also aborted and begun again when it meets another one's write. */
  ghost function Apply(s: System, a: Action): System
    requires Enabled(s, a)
  {
    match a
    case Begin(w, who, tenant) => s.(writers := s.writers[w := Waiting(who, tenant, |s.sessions|, 0)])
    case Plan(w, first, second) =>
      var it := s.writers[w];
      var outcome := SignedIn(s.sessions, it.who, it.tenant, first, second);
      s.(writers := s.writers[w :=
        if outcome.Granted? then Ready(it.who, it.tenant, it.began, it.attempt, s.sessions, outcome.sessions)
        else TurnedAway(it.who, it.tenant)])
    case TryCommit(w) =>
      var it := s.writers[w];
      var x := it.planned[|it.planned| - 1];
      var cleared := Ended(s.sessions, it.snapshot, it.planned);
      if Collides(cleared, x) then s.(writers := s.writers[w := AfterCollision(it)])
      else System(cleared + [x], s.writers[w := LoggedIn(it.who, it.tenant, |s.sessions|)])
    case Abort(w) =>
      var it := s.writers[w];
      s.(writers := s.writers[w := Waiting(it.who, it.tenant, it.began, it.attempt)])
    case Other(op) => s.(sessions := Step(s.sessions, op))
  }

  ghost predicate Possible(s: System, run: seq<Action>)
    decreases |run|
  {
    run == [] || (Enabled(s, run[0]) && Possible(Apply(s, run[0]), run[1..]))
  }

  ghost function After(s: System, run: seq<Action>): System
    requires Possible(s, run)
    decreases |run|
  {
    if run == [] then s else After(Apply(s, run[0]), run[1..])
  }

  // ----- the invariant

  /** The sessions of a user that were opened since there were `from` sessions in all. */
  ghost function Newcomers(s: Sessions, user: string, from: nat): set<nat> {
    set i | from <= i < |s| && s[i].user == user
  }

  /** Every open session is in a slot below the limit of its account. */
  ghost predicate Seated(s: Sessions, limits: map<string, nat>) {
    forall i :: 0 <= i < |s| && s[i].ended.None? ==> SeatedOne(s[i], limits)
  }

  predicate SeatedOne(x: Session, limits: map<string, nat>) {
    x.user in limits ==> x.slot.Some? && x.slot.value < limits[x.user]
  }

  predicate HeldTo(who: SignIn, tenant: Tenant, limits: map<string, nat>) {
    who.user in limits ==> LoginOf(who, tenant).max <= limits[who.user]
  }

  /** What is planned is one login's outcome on the snapshot. */
  ghost predicate Planned(it: Writer)
    requires it.Ready?
  {
    && Valid(it.snapshot) && Valid(it.planned) && AllOnlyEnd(it.snapshot, it.planned)
    && |it.planned| == |it.snapshot| + 1
    && var x := it.planned[|it.snapshot|];
       x.user == it.who.user && x.ended.None? && x.slot.Some? && x.slot.value < LoginOf(it.who, it.tenant).max
  }

  ghost predicate WriterOk(s: System, limits: map<string, nat>, w: nat)
    requires w in s.writers
  {
    var it := s.writers[w];
    && HeldTo(it.who, it.tenant, limits)
    && match it
       case Waiting(who, _, began, attempt) =>
         attempt < ATTEMPTS && began <= |s.sessions| && attempt <= |Newcomers(s.sessions, who.user, began)|
       case Ready(who, _, began, attempt, snapshot, _) =>
         && Planned(it) && AllOutlive(snapshot, s.sessions)
         && attempt < ATTEMPTS && began <= |snapshot| && attempt <= |Newcomers(snapshot, who.user, began)|
       case LoggedIn(who, _, id) => id < |s.sessions| && s.sessions[id].user == who.user
       case TurnedAway(_, _) => true
       case GaveUp(who, _, began) => ATTEMPTS <= |Newcomers(s.sessions, who.user, began)|
  }

  /** No two logins got the same session. */
  ghost predicate OwnSession(s: System, v: nat, w: nat)
    requires v in s.writers && w in s.writers
  {
    v != w && s.writers[v].LoggedIn? && s.writers[w].LoggedIn? ==> s.writers[v].id != s.writers[w].id
  }

  ghost predicate Inv(s: System, limits: map<string, nat>) {
    && Valid(s.sessions) && Seated(s.sessions, limits)
    && (forall w {:trigger WriterOk(s, limits, w)} :: w in s.writers ==> WriterOk(s, limits, w))
    && (forall v, w {:trigger OwnSession(s, v, w)} :: v in s.writers && w in s.writers ==> OwnSession(s, v, w))
  }

  // ----- what a step keeps

  lemma NewcomersGrow(s: Sessions, t: Sessions, user: string, from: nat)
    requires AllOutlive(s, t)
    ensures |Newcomers(s, user, from)| <= |Newcomers(t, user, from)|
  {
    forall i | i in Newcomers(s, user, from) ensures i in Newcomers(t, user, from) {
      assert Outlives(s[i], t[i]);
    }
    CardinalityMonotone(Newcomers(s, user, from), Newcomers(t, user, from));
  }

  lemma OutliveOnwards(s: Sessions, t: Sessions, u: Sessions)
    requires AllOutlive(s, t) && AllOutlive(t, u)
    ensures AllOutlive(s, u)
  {
    forall i | 0 <= i < |s| ensures Outlives(s[i], u[i]) {
      assert Outlives(s[i], t[i]) && Outlives(t[i], u[i]);
    }
  }

  /** A writer that has not moved is as well off as before, when sessions only came or ended. */
  lemma WriterStays(s: System, t: System, limits: map<string, nat>, w: nat)
    requires w in s.writers && w in t.writers && t.writers[w] == s.writers[w] && WriterOk(s, limits, w)
    requires AllOutlive(s.sessions, t.sessions)
    ensures WriterOk(t, limits, w)
  {
    match s.writers[w]
    case Waiting(who, _, began, _) => NewcomersGrow(s.sessions, t.sessions, who.user, began);
    case Ready(_, _, _, _, snapshot, _) => OutliveOnwards(snapshot, s.sessions, t.sessions);
    case LoggedIn(_, _, id) => assert Outlives(s.sessions[id], t.sessions[id]);
    case TurnedAway(_, _) =>
    case GaveUp(who, _, began) => NewcomersGrow(s.sessions, t.sessions, who.user, began);
  }

  lemma Unchanged(s: Sessions)
    ensures AllOutlive(s, s)
  {}

  /** A step that stores nothing: only writer `w` changed. */
  lemma WriterMoves(s: System, limits: map<string, nat>, w: nat, it: Writer)
    requires Inv(s, limits) && !it.LoggedIn?
    requires WriterOk(s.(writers := s.writers[w := it]), limits, w)
    ensures Inv(s.(writers := s.writers[w := it]), limits)
  {
    var t := s.(writers := s.writers[w := it]);
    Unchanged(s.sessions);
    forall v | v in t.writers ensures WriterOk(t, limits, v) {
      if v != w { WriterStays(s, t, limits, v); }
    }
    forall u, v | u in t.writers && v in t.writers ensures OwnSession(t, u, v) {
      assert u != w && v != w ==> OwnSession(s, u, v);
    }
  }

  lemma PlanKeepsInv(s: System, limits: map<string, nat>, a: Action)
    requires Inv(s, limits) && a.Plan? && Enabled(s, a)
    ensures Inv(Apply(s, a), limits)
  {
    var it := s.writers[a.w];
    assert WriterOk(s, limits, a.w);
    var outcome := SignedIn(s.sessions, it.who, it.tenant, a.first, a.second);
    if outcome.Granted? {
      var next := Ready(it.who, it.tenant, it.began, it.attempt, s.sessions, outcome.sessions);
      PlanIsGranted(s.sessions, it.who, it.tenant, a.first, a.second);
      Unchanged(s.sessions);
      assert Planned(next);
      WriterMoves(s, limits, a.w, next);
    } else {
      WriterMoves(s, limits, a.w, TurnedAway(it.who, it.tenant));
    }
  }

  /** What a login that is let in adds: one open session of its user, in a slot below its limit. */
  lemma PlanIsGranted(s: Sessions, who: SignIn, tenant: Tenant, first: int, second: int)
    requires Valid(s) && SignedIn(s, who, tenant, first, second).Granted?
    ensures var t := SignedIn(s, who, tenant, first, second).sessions;
            && |t| == |s| + 1 && AllOnlyEnd(s, t) && Valid(t)
            && t[|s|].user == who.user && t[|s|].ended.None?
            && t[|s|].slot.Some? && t[|s|].slot.value < LoginOf(who, tenant).max
  {
    var login := LoginOf(who, tenant);
    GrantKeepsLimit(s, login, first, second);
    if Pass(s, login, first).Again? {
      var u := Pass(s, login, first).sessions;
      PassEnds(s, login, first);
      EndingKeepsValid(s, u);
      GrantFits(u, login, second);
    } else {
      GrantFits(s, login, first);
    }
  }

  lemma EndedOnlyEnds(now: Sessions, snapshot: Sessions, planned: Sessions)
    ensures AllOnlyEnd(now, Ended(now, snapshot, planned))
  {}

  lemma SeatedStays(s: Sessions, t: Sessions, limits: map<string, nat>)
    requires Seated(s, limits) && AllOutlive(s, t) && |t| == |s|
    ensures Seated(t, limits)
  {
    forall i | 0 <= i < |t| && t[i].ended.None? ensures SeatedOne(t[i], limits) {
      assert Outlives(s[i], t[i]) && SeatedOne(s[i], limits);
    }
  }

  lemma CommitKeepsInv(s: System, limits: map<string, nat>, w: nat)
    requires Inv(s, limits) && Enabled(s, TryCommit(w))
    requires var it := s.writers[w];
             !Collides(Ended(s.sessions, it.snapshot, it.planned), it.planned[|it.planned| - 1])
    ensures Inv(Apply(s, TryCommit(w)), limits)
  {
    var it := s.writers[w];
    var x := it.planned[|it.planned| - 1];
    var cleared := Ended(s.sessions, it.snapshot, it.planned);
    var t := Apply(s, TryCommit(w));
    assert WriterOk(s, limits, w);
    EndedOnlyEnds(s.sessions, it.snapshot, it.planned);
    EndingKeepsValid(s.sessions, cleared);
    OnlyEndsOutlives(s.sessions, cleared);
    SeatedStays(s.sessions, cleared, limits);
    assert Bounded(x) && forall i :: 0 <= i < |cleared| ==> !Clash(cleared[i], x);
    GrantIsValid(cleared, x);
    forall i | 0 <= i < |s.sessions| ensures Outlives(s.sessions[i], t.sessions[i]) {
      assert Outlives(s.sessions[i], cleared[i]);
    }
    forall v | v in t.writers ensures WriterOk(t, limits, v) {
      if v != w { WriterStays(s, t, limits, v); }
    }
    forall u, v | u in t.writers && v in t.writers ensures OwnSession(t, u, v) {
      if u != w { assert WriterOk(s, limits, u); }
      if v != w { assert WriterOk(s, limits, v); }
      assert u != w && v != w ==> OwnSession(s, u, v);
    }
  }

  /** Whatever was open in the snapshot and still is does not hold the slot that was planned for. */
  lemma OldSessionsAreApart(now: Sessions, it: Writer, i: nat)
    requires it.Ready? && Planned(it) && AllOutlive(it.snapshot, now) && i < |it.snapshot|
    ensures !Clash(Ended(now, it.snapshot, it.planned)[i], it.planned[|it.planned| - 1])
  {
    assert Outlives(it.snapshot[i], now[i]) && OnlyEnds(it.snapshot[i], it.planned[i]);
    assert !Clash(it.planned[i], it.planned[|it.planned| - 1]);
  }

  /** A collision means that somebody else's login of the account has come in since the snapshot. */
  lemma CollisionIsANewcomer(s: System, limits: map<string, nat>, w: nat)
    requires Inv(s, limits) && Enabled(s, TryCommit(w))
    requires var it := s.writers[w];
             Collides(Ended(s.sessions, it.snapshot, it.planned), it.planned[|it.planned| - 1])
    ensures var it := s.writers[w];
            it.attempt + 1 <= |Newcomers(s.sessions, it.who.user, it.began)|
  {
    var it := s.writers[w];
    var x := it.planned[|it.planned| - 1];
    var cleared := Ended(s.sessions, it.snapshot, it.planned);
    assert WriterOk(s, limits, w);
    var i :| 0 <= i < |cleared| && Clash(cleared[i], x);
    if i < |it.snapshot| {
      OldSessionsAreApart(s.sessions, it, i);
    }
    var before, after := Newcomers(it.snapshot, it.who.user, it.began), Newcomers(s.sessions, it.who.user, it.began);
    forall j | j in before ensures j in after { assert Outlives(it.snapshot[j], s.sessions[j]); }
    assert i in after && i !in before;
    CardinalityMonotone(before + {i}, after);
  }

  lemma CollisionKeepsInv(s: System, limits: map<string, nat>, w: nat)
    requires Inv(s, limits) && Enabled(s, TryCommit(w))
    requires var it := s.writers[w];
             Collides(Ended(s.sessions, it.snapshot, it.planned), it.planned[|it.planned| - 1])
    ensures Inv(Apply(s, TryCommit(w)), limits)
  {
    var it := s.writers[w];
    assert WriterOk(s, limits, w);
    CollisionIsANewcomer(s, limits, w);
    var next := AfterCollision(it);
    assert Apply(s, TryCommit(w)) == s.(writers := s.writers[w := next]);
    WriterMoves(s, limits, w, next);
  }

  lemma OtherKeepsInv(s: System, limits: map<string, nat>, op: Op)
    requires Inv(s, limits) && !op.OpSignIn?
    ensures Inv(Apply(s, Other(op)), limits)
  {
    var t := Apply(s, Other(op));
    StepKeepsValid(s.sessions, op);
    SeatedStays(s.sessions, t.sessions, limits);
    forall v | v in t.writers ensures WriterOk(t, limits, v) { WriterStays(s, t, limits, v); }
    forall u, v | u in t.writers && v in t.writers ensures OwnSession(t, u, v) { assert OwnSession(s, u, v); }
  }

  lemma ApplyKeepsInv(s: System, limits: map<string, nat>, a: Action)
    requires Inv(s, limits) && Enabled(s, a) && (a.Begin? ==> HeldTo(a.who, a.tenant, limits))
    ensures Inv(Apply(s, a), limits)
  {
    match a
    case Begin(w, who, tenant) => WriterMoves(s, limits, w, Waiting(who, tenant, |s.sessions|, 0));
    case Plan(_, _, _) => PlanKeepsInv(s, limits, a);
    case TryCommit(w) =>
      var it := s.writers[w];
      if Collides(Ended(s.sessions, it.snapshot, it.planned), it.planned[|it.planned| - 1]) {
        CollisionKeepsInv(s, limits, w);
      } else {
        CommitKeepsInv(s, limits, w);
      }
    case Abort(w) =>
      var it := s.writers[w];
      assert WriterOk(s, limits, w);
      NewcomersGrow(it.snapshot, s.sessions, it.who.user, it.began);
      WriterMoves(s, limits, w, Waiting(it.who, it.tenant, it.began, it.attempt));
    case Other(op) => OtherKeepsInv(s, limits, op);
  }

  // ----- what every run ends with

  ghost predicate AllHeldTo(run: seq<Action>, limits: map<string, nat>) {
    forall a :: a in run && a.Begin? ==> HeldTo(a.who, a.tenant, limits)
  }

  lemma {:induction false} RunsKeepInv(s: System, limits: map<string, nat>, run: seq<Action>)
    requires Inv(s, limits) && Possible(s, run) && AllHeldTo(run, limits)
    ensures Inv(After(s, run), limits)
    decreases |run|
  {
    if run != [] {
      assert run[0] in run;
      ApplyKeepsInv(s, limits, run[0]);
      RunsKeepInv(Apply(s, run[0]), limits, run[1..]);
    }
  }

  /** Sessions in distinct slots below a limit are no more than the limit. */
  lemma {:induction false} SlotsBoundSessions(s: Sessions, ids: set<nat>, limit: nat)
    requires forall i :: i in ids ==> i < |s| && s[i].slot.Some? && s[i].slot.value < limit
    requires forall i, j :: i in ids && j in ids && i != j ==> s[i].slot != s[j].slot
    ensures |ids| <= limit
    decreases limit
  {
    if ids != {} {
      if exists i :: i in ids && s[i].slot.value == limit - 1 {
        var i :| i in ids && s[i].slot.value == limit - 1;
        SlotsBoundSessions(s, ids - {i}, limit - 1);
      } else {
        SlotsBoundSessions(s, ids, limit - 1);
      }
    }
  }

  /** Whatever logins run at the same time, an account never has more open sessions than they were held to. */
  lemma RacesKeepLimit(limits: map<string, nat>, run: seq<Action>, user: string)
    requires Possible(NOBODY, run) && AllHeldTo(run, limits) && user in limits
    ensures Inv(After(NOBODY, run), limits)
    ensures |OpenIds(After(NOBODY, run).sessions, user)| <= limits[user]
  {
    RunsKeepInv(NOBODY, limits, run);
    var s := After(NOBODY, run).sessions;
    var ids := OpenIds(s, user);
    forall i | i in ids ensures s[i].slot.Some? && s[i].slot.value < limits[user] {
      assert SeatedOne(s[i], limits);
    }
    forall i, j | i in ids && j in ids && i != j ensures s[i].slot != s[j].slot {
      assert if i < j then !Clash(s[i], s[j]) else !Clash(s[j], s[i]);
    }
    SlotsBoundSessions(s, ids, limits[user]);
  }

  /** A login that was let in has a session of its own. */
  lemma LoggedInOnce(s: System, limits: map<string, nat>, v: nat, w: nat)
    requires Inv(s, limits) && v in s.writers && w in s.writers && s.writers[v].LoggedIn? && s.writers[w].LoggedIn?
    ensures s.writers[v].id < |s.sessions| && s.sessions[s.writers[v].id].user == s.writers[v].who.user
    ensures s.writers[v].id == s.writers[w].id ==> v == w
  {
    assert WriterOk(s, limits, v) && OwnSession(s, v, w);
  }

  /** A login is given up only after four others of the account were let in since it began. */
  lemma GivenUpAfterFourOthers(s: System, limits: map<string, nat>, w: nat)
    requires Inv(s, limits) && w in s.writers && s.writers[w].GaveUp?
    ensures ATTEMPTS <= |Newcomers(s.sessions, s.writers[w].who.user, s.writers[w].began)|
  {
    assert WriterOk(s, limits, w);
  }
}
