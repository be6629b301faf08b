/**
 * What a login, a request and a logout leave of the sessions (src/modules/auth/service.ts), session by session: which
 * assurance counts, who is let in and who must go, and until when a session lasts.
 */
module SessionLaws {
  import opened Prelude
  import opened Sorting
  import opened Sessions

  /**
   * The assurance counts: in the public demo the demo's own and no other, elsewhere a bypass where one is allowed, a
   * single factor where that is admitted, and a second factor where it is admitted and was verified.
   */
  predicate Counts(a: Assurance, allowed: set<string>, policy: Policy) {
    if policy.requirePublicDemo then a.how == "public_demo" && policy.allowPublicDemo
    else
      || (a.how == "development_bypass" && policy.allowDevelopmentBypass)
      || (a.how == "single_factor" && "single_factor" in allowed)
      || (a.how in {"firebase_mfa", "risk_sense_otp"} && a.how in allowed && a.mfaVerified)
  }

  lemma SatisfiesMeans(a: Option<Assurance>, allowed: set<string>, policy: Policy)
    ensures Satisfies(a, allowed, policy) <==> a.Some? && Counts(a.value, allowed, policy)
  {}

  /** The session lets the user in at this moment. */
  predicate LetsIn(x: Session, c: Check, now: int) {
    && x.user == c.user && x.ended == None && now < x.expiresAt
    && x.assurance.Some? && Counts(x.assurance.value, c.allowed, c.policy)
  }

  lemma LiveMeans(x: Session, c: Check, now: int)
    ensures Live(x, c, now) <==> LetsIn(x, c, now)
  {
    SatisfiesMeans(x.assurance, c.allowed, c.policy);
  }

  ghost function InNow(s: Sessions, c: Check, now: int): set<nat> {
    set i: nat | i < |s| && LetsIn(s[i], c, now)
  }

  lemma LiveIsInNow(s: Sessions, c: Check, now: int)
    ensures Ids(LiveList(s, c, now)) == InNow(s, c, now) && |LiveList(s, c, now)| == |InNow(s, c, now)|
  {
    var live := LiveList(s, c, now);
    LiveFacts(s, c, now);
    forall i: nat ensures i in Ids(live) <==> i in InNow(s, c, now) {
      if i < |s| {
        LiveMeans(s[i], c, now);
        assert LetsIn(s[i], c, now) ==> Entry(i, s[i]) in live;
      }
    }
    IdsCount(s, live);
  }

  /** What the cleaning makes of a session: an open one of the user ends if it is over, or no longer counts. */
  ghost predicate CleanedTo(x: Session, y: Session, c: Check, now: int) {
    if x.user != c.user || x.ended.Some? || LetsIn(x, c, now) then y == x
    else y == x.(ended := Some(if x.expiresAt <= now then Timeout else Superseded))
  }

  lemma CleanMeans(s: Sessions, c: Check, now: int)
    ensures |Clean(s, c, now)| == |s| && forall i :: 0 <= i < |s| ==> CleanedTo(s[i], Clean(s, c, now)[i], c, now)
  {
    forall i | 0 <= i < |s| ensures CleanedTo(s[i], Clean(s, c, now)[i], c, now) {
      SatisfiesMeans(s[i].assurance, c.allowed, c.policy);
    }
  }

  /** The slot is the lowest that no session which lets the user in holds. */
  ghost predicate LowestFree(s: Sessions, c: Check, now: int, slot: nat) {
    && (forall i :: 0 <= i < |s| && LetsIn(s[i], c, now) ==> s[i].slot != Some(slot))
    && forall n: nat :: n < slot ==> exists i :: 0 <= i < |s| && LetsIn(s[i], c, now) && s[i].slot == Some(n)
  }

  lemma FirstFreeIsLowest(occupied: set<nat>, from: nat, max: nat)
    requires FirstFree(occupied, from, max).Some?
    ensures var slot := FirstFree(occupied, from, max).value;
            from <= slot < max && slot !in occupied && forall n :: from <= n < slot ==> n in occupied
    decreases max - from
  {
    if from < max && from in occupied {
      FirstFreeIsLowest(occupied, from + 1, max);
    }
  }

  lemma SlotsMean(s: Sessions, c: Check, now: int, slot: nat)
    ensures slot in SlotsOf(LiveList(s, c, now))
            <==> exists i :: 0 <= i < |s| && LetsIn(s[i], c, now) && s[i].slot == Some(slot)
  {
    LiveFacts(s, c, now);
    if slot in SlotsOf(LiveList(s, c, now)) {
      var e :| e in LiveList(s, c, now) && e.session.slot == Some(slot);
      LiveMeans(s[e.id], c, now);
      assert LetsIn(s[e.id], c, now);
    }
    if i :| 0 <= i < |s| && LetsIn(s[i], c, now) && s[i].slot == Some(slot) {
      LiveMeans(s[i], c, now);
      assert Entry(i, s[i]) in LiveList(s, c, now);
    }
  }

  /** The session a login begins. */
  ghost predicate Begun(x: Session, login: Login, slot: nat, now: int) {
    && x.user == login.check.user && x.slot == Some(slot) && x.ended == None && x.lastSeenAt == now
    && x.expiresAt == now + login.idleMinutes * 60000
    && x.absolute == (if login.how == "public_demo" then Some(now + 3600000) else None)
    && x.assurance == Some(Assurance(login.how, login.mfa))
  }

  /** Let in: fewer sessions than the limit let the user in; they stay, and the new one takes the lowest free slot. */
  ghost predicate LetIn(s: Sessions, login: Login, now: int, t: Sessions) {
    && |InNow(s, login.check, now)| < login.max && |t| == |s| + 1
    && (forall i :: 0 <= i < |s| ==> CleanedTo(s[i], t[i], login.check, now))
    && exists slot: nat :: slot < login.max && LowestFree(s, login.check, now, slot) && Begun(t[|s|], login, slot, now)
  }

  /** Room is made: of the sessions that let the user in all but `max - 1` are superseded, the least recently seen. */
  ghost predicate MakesRoom(s: Sessions, login: Login, now: int, t: Sessions) {
    var live := InNow(s, login.check, now);
    && |live| >= login.max && !login.block && |t| == |s|
    && (forall i :: 0 <= i < |s| && i !in live ==> CleanedTo(s[i], t[i], login.check, now))
    && (forall i :: i in live ==> t[i] == s[i] || t[i] == s[i].(ended := Some(Superseded)))
    && |set i | i in live && t[i].ended == None| == (if login.max == 0 then 0 else login.max - 1)
    && forall i, j :: i in live && j in live && t[i].ended.Some? && t[j].ended == None ==>
         s[i].lastSeenAt <= s[j].lastSeenAt
  }

  lemma RoomIsMade(s: Sessions, login: Login, now: int)
    requires Pass(s, login, now).Again?
    ensures MakesRoom(s, login, now, Pass(s, login, now).sessions)
  {
    var c, t := login.check, Pass(s, login, now).sessions;
    var live := LiveList(s, c, now);
    AgainLeavesFewer(s, login, now);
    LiveIsInNow(s, c, now);
    CleanMeans(s, c, now);
    LiveFacts(s, c, now);
    SuffixInNow(s, login, now);
    assert OpenIds(t, c.user) == set i | i in InNow(s, c, now) && t[i].ended == None;
    OldestGo(s, login, now);
  }

  lemma OldestGo(s: Sessions, login: Login, now: int)
    requires Pass(s, login, now).Again?
    ensures var live, t := InNow(s, login.check, now), Pass(s, login, now).sessions;
            |t| == |s| && forall i, j :: i in live && j in live && t[i].ended.Some? && t[j].ended == None ==>
              s[i].lastSeenAt <= s[j].lastSeenAt
  {
    var live, t := InNow(s, login.check, now), Pass(s, login, now).sessions;
    PassEnds(s, login, now);
    forall i, j | i in live && j in live && t[i].ended.Some? && t[j].ended == None
      ensures s[i].lastSeenAt <= s[j].lastSeenAt
    {
      LiveMeans(s[i], login.check, now);
      LiveMeans(s[j], login.check, now);
      LeastRecentlySeenGo(s, login, now, i, j);
    }
  }

  /** Only sessions that let the user in are superseded to make room. */
  lemma SuffixInNow(s: Sessions, login: Login, now: int)
    requires Pass(s, login, now).Again?
    ensures forall i :: i in OpenIds(Pass(s, login, now).sessions, login.check.user) ==> i in InNow(s, login.check, now)
    ensures forall i :: 0 <= i < |s| && i !in InNow(s, login.check, now) ==>
              Pass(s, login, now).sessions[i] == Clean(s, login.check, now)[i]
  {
    var live := LiveList(s, login.check, now);
    AgainLeavesFewer(s, login, now);
    LiveIsInNow(s, login.check, now);
    assert forall e :: e in live[..Excess(live, login.max)] ==> e in live;
    assert forall e :: e in live[Excess(live, login.max)..] ==> e in live;
  }

  /** A pass lets the login in, refuses it because of the sessions there are, or makes room. */
  lemma PassMeans(s: Sessions, login: Login, now: int)
    ensures match Pass(s, login, now)
            case Stop(outcome) =>
              (match outcome
               case Granted(t) => LetIn(s, login, now, t)
               case Blocked(n) => login.block && n == |InNow(s, login.check, now)| >= login.max
               case _ => false)
            case Again(t) => MakesRoom(s, login, now, t)
  {
    var c := login.check;
    var live := LiveList(s, c, now);
    LiveIsInNow(s, c, now);
    CleanMeans(s, c, now);
    if Pass(s, login, now).Again? {
      RoomIsMade(s, login, now);
    } else if |live| < login.max {
      FirstFreeIsLowest(SlotsOf(live), 0, login.max);
      var slot := FirstFree(SlotsOf(live), 0, login.max).value;
      forall n: nat
        ensures n in SlotsOf(live) <==> exists i :: 0 <= i < |s| && LetsIn(s[i], c, now) && s[i].slot == Some(n)
      {
        SlotsMean(s, c, now, n);
      }
      assert LowestFree(s, c, now, slot);
    }
  }

  /** In the public demo at most ten sessions of at most a quarter of an hour, and no room made for another. */
  ghost predicate IsLogin(login: Login, who: SignIn, tenant: Tenant) {
    && login.check.user == who.user && login.check.allowed == tenant.allowed && login.how == who.how
    && login.check.policy.allowDevelopmentBypass == who.devBypass
    && (login.mfa <==> who.how in {"firebase_mfa", "risk_sense_otp"})
    && (who.how == "public_demo" ==>
          && login.max == 10 && login.block
          && login.idleMinutes == (if tenant.idleMinutes < 15 then tenant.idleMinutes else 15)
          && login.check.policy.requirePublicDemo && login.check.policy.allowPublicDemo == who.demoEligible)
    && (who.how != "public_demo" ==>
          && login.max == tenant.max && login.block == tenant.block && login.idleMinutes == tenant.idleMinutes
          && !login.check.policy.requirePublicDemo && !login.check.policy.allowPublicDemo)
  }

  /** A login is refused without an assurance that counts; else a pass decides, or a second one after making room. */
  lemma SignedInMeans(s: Sessions, who: SignIn, tenant: Tenant, first: int, second: int) returns (login: Login)
    ensures IsLogin(login, who, tenant)
    ensures match SignedIn(s, who, tenant, first, second)
            case MfaRequired => !Counts(Assurance(who.how, login.mfa), tenant.allowed, login.check.policy)
            case Blocked(n) => login.block && n == |InNow(s, login.check, first)| >= login.max
            case Exhausted => login.max == 0 && !login.block
            case Granted(t) =>
              && Counts(Assurance(who.how, login.mfa), tenant.allowed, login.check.policy)
              && (LetIn(s, login, first, t)
                  || exists room :: MakesRoom(s, login, first, room) && LetIn(room, login, second, t))
  {
    login := LoginOf(who, tenant);
    SatisfiesMeans(Some(Assurance(who.how, login.mfa)), tenant.allowed, login.check.policy);
    PassMeans(s, login, first);
    NeverExhausted(s, login, first, second);
    if Pass(s, login, first).Again? {
      PassMeans(Pass(s, login, first).sessions, login, second);
    }
  }

  // ----- being seen, and ending

  ghost predicate OnlyAt(s: Sessions, t: Sessions, id: nat) {
    id < |s| == |t| && forall i :: 0 <= i < |s| && i != id ==> t[i] == s[i]
  }

  /** The session still stands: before its expiry and its absolute limit. */
  predicate Stands(x: Session, user: string, now: int) {
    x.user == user && x.ended == None && now < x.expiresAt && (x.absolute.Some? ==> now < x.absolute.value)
  }

  /** Its assurance counts for a request; a demo session must have its absolute limit. */
  predicate CountsNow(x: Session, tenant: Tenant, policy: Policy) {
    && x.assurance.Some? && Counts(x.assurance.value, tenant.allowed, policy)
    && (x.assurance.value.how == "public_demo" ==> x.absolute.Some?)
  }

  /** How long a session lasts from now: the tenant's idle time, a quarter of an hour at most in the demo. */
  function Idle(x: Session, tenant: Tenant): int {
    if x.assurance.Some? && x.assurance.value.how == "public_demo" && tenant.idleMinutes > 15 then 15
    else tenant.idleMinutes
  }

  /**
   * A request is let through exactly when its session stands and counts; the session then lasts for the idle time from
   * now or to its absolute limit, whichever is sooner. A session that is over ends, and nothing else ever changes.
   */
  lemma TouchMeans(s: Sessions, id: nat, user: string, now: int, tenant: Tenant, policy: Policy)
    ensures match Touched(s, id, user, now, tenant, policy)
            case Alive(t) =>
              && OnlyAt(s, t, id) && Stands(s[id], user, now) && CountsNow(s[id], tenant, policy)
              && t[id] == s[id].(lastSeenAt := now, expiresAt := t[id].expiresAt)
              && var sliding := now + Idle(s[id], tenant) * 60000;
                 && (s[id].absolute == None ==> t[id].expiresAt == sliding)
                 && (forall end :: s[id].absolute == Some(end) ==>
                       t[id].expiresAt == if end < sliding then end else sliding)
            case Expired(t) =>
              && OnlyAt(s, t, id) && s[id].user == user && s[id].ended == None && !Stands(s[id], user, now)
              && t[id] == s[id].(ended := Some(Timeout))
            case Invalid =>
              id < |s| && s[id].user == user && s[id].ended == None ==>
                Stands(s[id], user, now) && !CountsNow(s[id], tenant, policy)
  {
    if id < |s| {
      SatisfiesMeans(s[id].assurance, tenant.allowed, policy);
    }
  }

  /** A session that is still open ends for the reason given, and nothing else changes. */
  lemma EndMeans(s: Sessions, id: nat, reason: Reason)
    ensures var t := Step(s, OpEnd(id, reason));
            if id < |s| && s[id].ended == None then OnlyAt(s, t, id) && t[id] == s[id].(ended := Some(reason))
              else t == s
  {}

  lemma EndAllMeans(s: Sessions, user: string, reason: Reason)
    ensures var t := Step(s, OpEndAll(user, reason));
            |t| == |s| && forall i :: 0 <= i < |s| ==>
              t[i] == if s[i].user == user && s[i].ended == None then s[i].(ended := Some(reason)) else s[i]
  {}
}
