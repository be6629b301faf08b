/**
 * Application sessions (src/modules/auth/service.ts): the allocation of a bounded number of slots per account, the
 * sliding expiry under an absolute limit, and termination. A session's id is its position in the collection.
 */
module Sessions {
  import opened Prelude
  import opened Sorting

  datatype Reason = Timeout | Logout | Superseded | Admin | RoleChanged

  datatype Assurance = Assurance(how: string, mfaVerified: bool)

  datatype Session = Session(
    user: string,
    slot: Option<nat>,
    lastSeenAt: int,
    expiresAt: int,
    absolute: Option<int>,
    ended: Option<Reason>,
    assurance: Option<Assurance>)

  type Sessions = seq<Session>

  datatype Policy = Policy(allowDevelopmentBypass: bool, allowPublicDemo: bool, requirePublicDemo: bool)

  const METHODS := ["single_factor", "firebase_mfa", "risk_sense_otp", "development_bypass", "public_demo"]
  const MINUTE := 60 * 1000
  const DEMO_IDLE := 15
  const DEMO_ABSOLUTE := 60
  const DEMO_MAX := 10

  /** `allowed` is what the account's plan and role admit at this login. */
  predicate Satisfies(a: Option<Assurance>, allowed: set<string>, policy: Policy) {
    if a.None? || a.value.how !in METHODS then false
    else if policy.requirePublicDemo then policy.allowPublicDemo && a.value.how == "public_demo"
    else if a.value.how == "development_bypass" then policy.allowDevelopmentBypass
    else if a.value.how == "public_demo" then false
    else a.value.how in allowed && (a.value.how == "single_factor" || a.value.mfaVerified)
  }

  // ----- who is in

  predicate Open(x: Session, user: string) {
    x.user == user && x.ended.None?
  }

  ghost function OpenIds(s: Sessions, user: string): set<nat> {
    set i | 0 <= i < |s| && Open(s[i], user)
  }

  /** What a login is checked against: its moment, and whether a session's assurance still counts. */
  datatype Check = Check(user: string, allowed: set<string>, policy: Policy)

  predicate Live(x: Session, c: Check, now: int) {
    Open(x, c.user) && x.expiresAt > now && Satisfies(x.assurance, c.allowed, c.policy)
  }

  /** An open session with its id. */
  datatype Entry = Entry(id: nat, session: Session)

  function Entries(s: Sessions): (r: seq<Entry>)
    ensures |r| == |s|
  {
    seq(|s|, i requires 0 <= i < |s| => Entry(i, s[i]))
  }

  predicate SeenBefore(a: Entry, b: Entry) {
    a.session.lastSeenAt < b.session.lastSeenAt
  }

  /** The user's open sessions, least recently seen first. */
  function Active(s: Sessions, user: string): seq<Entry> {
    Sort(SeenBefore, Filter((e: Entry) => Open(e.session, user), Entries(s)))
  }

  function LiveList(s: Sessions, c: Check, now: int): seq<Entry> {
    Filter((e: Entry) => Live(e.session, c, now), Active(s, c.user))
  }

  function Ids(list: seq<Entry>): set<nat> {
    set e | e in list :: e.id
  }

  lemma {:induction false} EntriesDistinct(s: Sessions)
    ensures Distinct(Entries(s)) && forall e :: e in Entries(s) <==> e.id < |s| && e.session == s[e.id]
  {
    forall e: Entry | e.id < |s| && e.session == s[e.id] ensures e in Entries(s) {
      assert Entries(s)[e.id] == e;
    }
  }

  /** The list of a user's open sessions: each of them once, in order of when they were last seen. */
  lemma ActiveFacts(s: Sessions, user: string)
    ensures var a := Active(s, user);
            && Distinct(a) && Sorted(SeenBefore, a)
            && forall e :: e in a <==> e.id < |s| && e.session == s[e.id] && Open(s[e.id], user)
  {
    var p := (e: Entry) => Open(e.session, user);
    var found := Filter(p, Entries(s));
    EntriesDistinct(s);
    FilterKeepsDistinct(p, Entries(s));
    FilterMembers(p, Entries(s));
    SortSorts(SeenBefore, found);
    SameElements(Sort(SeenBefore, found), found);
    DistinctPermutation(found, Sort(SeenBefore, found));
  }

  lemma {:induction false} FilterKeepsSorted(less: Order<Entry>, p: Entry -> bool, a: seq<Entry>)
    requires Sorted(less, a)
    ensures Sorted(less, Filter(p, a))
  {
    if a != [] {
      FilterKeepsSorted(less, p, a[1..]);
      FilterMembers(p, a[1..]);
      forall j | 0 <= j < |Filter(p, a[1..])| ensures !less(Filter(p, a[1..])[j], a[0]) {
        assert Filter(p, a[1..])[j] in a[1..];
      }
    }
  }

  lemma LiveFacts(s: Sessions, c: Check, now: int)
    ensures var a := LiveList(s, c, now);
            && Distinct(a) && Sorted(SeenBefore, a)
            && forall e :: e in a <==> e.id < |s| && e.session == s[e.id] && Live(s[e.id], c, now)
  {
    var p := (e: Entry) => Live(e.session, c, now);
    ActiveFacts(s, c.user);
    FilterKeepsDistinct(p, Active(s, c.user));
    FilterKeepsSorted(SeenBefore, p, Active(s, c.user));
    FilterMembers(p, Active(s, c.user));
  }

  /** A duplicate-free list of a collection's entries names as many sessions as it is long. */
  lemma {:induction false} IdsCount(s: Sessions, a: seq<Entry>)
    requires Distinct(a) && forall e :: e in a ==> e.id < |s| && e.session == s[e.id]
    ensures |Ids(a)| == |a|
  {
    if a != [] {
      IdsCount(s, a[1..]);
      assert Ids(a) == Ids(a[1..]) + {a[0].id};
      assert forall e :: e in a[1..] ==> e != a[0];
    }
  }

  // ----- one pass of the allocation

  /** Ending sessions: one that has ended already is left as it is. */
  function End(x: Session, reason: Reason): Session {
    if x.ended.None? then x.(ended := Some(reason)) else x
  }

  function Terminate(s: Sessions, ids: set<nat>, reason: Reason): (t: Sessions)
    ensures |t| == |s|
  {
    seq(|s|, i requires 0 <= i < |s| => if i in ids then End(s[i], reason) else s[i])
  }

  function Cleaned(x: Session, c: Check, now: int): Session {
    if !Open(x, c.user) then x
    else if x.expiresAt <= now then x.(ended := Some(Timeout))
    else if !Satisfies(x.assurance, c.allowed, c.policy) then x.(ended := Some(Superseded))
    else x
  }

  /** Stale sessions time out, and those whose assurance no longer counts are superseded. */
  function Clean(s: Sessions, c: Check, now: int): (t: Sessions)
    ensures |t| == |s|
  {
    seq(|s|, i requires 0 <= i < |s| => Cleaned(s[i], c, now))
  }

  function SlotsOf(live: seq<Entry>): set<nat> {
    set e | e in live && e.session.slot.Some? :: e.session.slot.value
  }

  function FirstFree(occupied: set<nat>, from: nat, max: nat): (slot: Option<nat>)
    decreases max - from
  {
    if from >= max then None
    else if from !in occupied then Some(from)
    else FirstFree(occupied, from + 1, max)
  }

  datatype Login = Login(check: Check, how: string, mfa: bool, max: nat, block: bool, idleMinutes: int)

  function NewSession(login: Login, slot: nat, now: int): Session {
    Session(login.check.user, Some(slot), now, now + login.idleMinutes * MINUTE,
            if login.how == "public_demo" then Some(now + DEMO_ABSOLUTE * MINUTE) else None,
            None, Some(Assurance(login.how, login.mfa)))
  }

  datatype Outcome = MfaRequired | Blocked(live: nat) | Exhausted | Granted(sessions: Sessions)

  datatype PassResult = Stop(outcome: Outcome) | Again(sessions: Sessions)

  /** How many of the live sessions must go. */
  function Excess(live: seq<Entry>, max: nat): nat
    requires |live| >= max
  {
    if max == 0 then |live| else |live| - max + 1
  }

  function Pass(s: Sessions, login: Login, now: int): PassResult {
    var live := LiveList(s, login.check, now);
    var cleaned := Clean(s, login.check, now);
    if |live| >= login.max then
      if login.block then Stop(Blocked(|live|))
      else Again(Terminate(cleaned, Ids(live[..Excess(live, login.max)]), Superseded))
    else
      match FirstFree(SlotsOf(live), 0, login.max)
      case None => Again(cleaned)
      case Some(slot) => Stop(Granted(cleaned + [NewSession(login, slot, now)]))
  }

  /** The whole allocation: at most two passes, each at its own moment. */
  function Allocate(s: Sessions, login: Login, first: int, second: int): Outcome {
    match Pass(s, login, first)
    case Stop(outcome) => outcome
    case Again(t) =>
      match Pass(t, login, second)
      case Stop(outcome) => outcome
      case Again(_) => Exhausted
  }

  // ----- two passes are enough

  lemma CleanOpens(s: Sessions, c: Check, now: int)
    ensures OpenIds(Clean(s, c, now), c.user) == Ids(LiveList(s, c, now))
  {
    LiveFacts(s, c, now);
    forall i | 0 <= i < |s| && Live(s[i], c, now) ensures i in Ids(LiveList(s, c, now)) {
      assert Entry(i, s[i]) in LiveList(s, c, now);
    }
  }

  lemma LiveAreOpen(s: Sessions, c: Check, now: int)
    ensures |LiveList(s, c, now)| <= |OpenIds(s, c.user)|
  {
    var live := LiveList(s, c, now);
    LiveFacts(s, c, now);
    IdsCount(s, live);
    assert Ids(live) <= OpenIds(s, c.user);
    CardinalityMonotone(Ids(live), OpenIds(s, c.user));
  }

  lemma {:induction false} FirstFreeFails(occupied: set<nat>, from: nat, max: nat)
    ensures match FirstFree(occupied, from, max)
            case Some(slot) => from <= slot < max && slot !in occupied
            case None => forall n :: from <= n < max ==> n in occupied
    decreases max - from
  {
    if from < max && from in occupied {
      FirstFreeFails(occupied, from + 1, max);
    }
  }

  lemma {:induction false} RangeFits(n: nat, u: set<nat>)
    requires forall k :: 0 <= k < n ==> k in u
    ensures n <= |u|
  {
    if n > 0 {
      RangeFits(n - 1, u - {n - 1});
    }
  }

  lemma {:induction false} SlotsCount(live: seq<Entry>)
    ensures |SlotsOf(live)| <= |live|
  {
    if live != [] {
      SlotsCount(live[1..]);
      var e := live[0];
      assert SlotsOf(live) == SlotsOf(live[1..]) + if e.session.slot.Some? then {e.session.slot.value} else {};
    }
  }

  /** Fewer live sessions than slots leave a slot free. */
  lemma SlotIsFree(live: seq<Entry>, max: nat)
    requires |live| < max
    ensures FirstFree(SlotsOf(live), 0, max).Some?
  {
    FirstFreeFails(SlotsOf(live), 0, max);
    if FirstFree(SlotsOf(live), 0, max).None? {
      RangeFits(max, SlotsOf(live));
    }
    SlotsCount(live);
  }

  lemma TerminateOpens(s: Sessions, ids: set<nat>, reason: Reason, user: string)
    ensures OpenIds(Terminate(s, ids, reason), user) == OpenIds(s, user) - ids
  {}

  lemma SplitIds(s: Sessions, live: seq<Entry>, k: nat)
    requires Distinct(live) && k <= |live| && forall e :: e in live ==> e.id < |s| && e.session == s[e.id]
    ensures Ids(live) - Ids(live[..k]) == Ids(live[k..])
  {}

  lemma SuffixDistinct(live: seq<Entry>, k: nat)
    requires Distinct(live) && k <= |live|
    ensures Distinct(live[k..]) && forall e :: e in live[k..] ==> e in live
  {}

  /** A pass that goes round again leaves exactly the most recently seen max - 1 live sessions open. */
  lemma AgainLeavesFewer(s: Sessions, login: Login, now: int)
    requires Pass(s, login, now).Again?
    ensures var live := LiveList(s, login.check, now);
            && |live| >= login.max
            && OpenIds(Pass(s, login, now).sessions, login.check.user) == Ids(live[Excess(live, login.max)..])
            && |OpenIds(Pass(s, login, now).sessions, login.check.user)| == if login.max == 0 then 0 else login.max - 1
  {
    var c := login.check;
    var live := LiveList(s, c, now);
    LiveFacts(s, c, now);
    if |live| < login.max {
      SlotIsFree(live, login.max);
    }
    var k := Excess(live, login.max);
    CleanOpens(s, c, now);
    TerminateOpens(Clean(s, c, now), Ids(live[..k]), Superseded, c.user);
    SplitIds(s, live, k);
    SuffixDistinct(live, k);
    IdsCount(s, live[k..]);
  }

  /** With at least one slot the second pass always decides, so the loop never runs out of passes. */
  lemma SecondPassDecides(s: Sessions, login: Login, first: int, second: int)
    requires login.max >= 1 && Pass(s, login, first).Again?
    ensures Pass(Pass(s, login, first).sessions, login, second).Stop?
  {
    var t := Pass(s, login, first).sessions;
    AgainLeavesFewer(s, login, first);
    LiveAreOpen(t, login.check, second);
    SlotIsFree(LiveList(t, login.check, second), login.max);
  }

  lemma NeverExhausted(s: Sessions, login: Login, first: int, second: int)
    ensures Allocate(s, login, first, second) == Exhausted <==> login.max == 0 && !login.block
  {
    if Pass(s, login, first).Again? {
      var t := Pass(s, login, first).sessions;
      if login.max >= 1 {
        SecondPassDecides(s, login, first, second);
      }
    }
  }

  // ----- what a granted login leaves behind

  /** No two open sessions of a user hold one slot, and no session outlives its absolute limit. */
  ghost predicate Valid(s: Sessions) {
    && (forall i, j :: 0 <= i < j < |s| ==> !Clash(s[i], s[j]))
    && (forall i :: 0 <= i < |s| ==> Bounded(s[i]))
  }

  predicate Clash(a: Session, b: Session) {
    a.user == b.user && a.ended.None? && b.ended.None? && a.slot.Some? && a.slot == b.slot
  }

  predicate Bounded(x: Session) {
    x.absolute.Some? ==> x.expiresAt <= x.absolute.value
  }

  /** Sessions only ever end: nothing else about a stored one changes. */
  predicate OnlyEnds(a: Session, b: Session) {
    b == a || (a.ended.None? && b.ended.Some? && b == a.(ended := b.ended))
  }

  ghost predicate AllOnlyEnd(s: Sessions, t: Sessions) {
    |s| <= |t| && forall i :: 0 <= i < |s| ==> OnlyEnds(s[i], t[i])
  }

  lemma EndingKeepsValid(s: Sessions, t: Sessions)
    requires Valid(s) && |t| == |s| && AllOnlyEnd(s, t)
    ensures Valid(t)
  {}

  lemma PassEnds(s: Sessions, login: Login, now: int)
    requires Pass(s, login, now).Again?
    ensures AllOnlyEnd(s, Pass(s, login, now).sessions) && |Pass(s, login, now).sessions| == |s|
  {
    var cleaned := Clean(s, login.check, now);
    forall i | 0 <= i < |s| ensures OnlyEnds(s[i], Pass(s, login, now).sessions[i]) {
      assert OnlyEnds(s[i], cleaned[i]);
    }
  }

  ghost predicate DemoKeepsShort(login: Login) {
    login.how == "public_demo" ==> login.idleMinutes <= DEMO_ABSOLUTE
  }

  /** A slot no live session holds clashes with no session that is still open after the cleaning. */
  lemma FreeSlotClashesNot(s: Sessions, login: Login, now: int, slot: nat, i: nat)
    requires i < |s| && slot !in SlotsOf(LiveList(s, login.check, now))
    ensures !Clash(Clean(s, login.check, now)[i], NewSession(login, slot, now))
  {
    var c := login.check;
    var live := LiveList(s, c, now);
    var cleaned := Clean(s, c, now);
    LiveFacts(s, c, now);
    if Open(cleaned[i], c.user) && cleaned[i].slot.Some? {
      assert Entry(i, s[i]) in live && cleaned[i] == s[i];
      assert cleaned[i].slot.value in SlotsOf(live);
    }
  }

  lemma CleanEnds(s: Sessions, c: Check, now: int)
    ensures AllOnlyEnd(s, Clean(s, c, now)) && |Clean(s, c, now)| == |s|
  {}

  lemma OpenAppend(s: Sessions, x: Session, user: string)
    requires Open(x, user)
    ensures OpenIds(s + [x], user) == OpenIds(s, user) + {|s|}
  {}

  /**
   * A pass that grants: the new session comes last, in a slot below the limit that no open session of the user holds.
   */
  lemma GrantFits(s: Sessions, login: Login, now: int)
    requires Valid(s) && DemoKeepsShort(login)
    requires Pass(s, login, now).Stop? && Pass(s, login, now).outcome.Granted?
    ensures var t := Pass(s, login, now).outcome.sessions;
            && |t| == |s| + 1 && AllOnlyEnd(s, t) && Valid(t)
            && (exists slot: nat :: slot < login.max && t[|s|] == NewSession(login, slot, now))
            && OpenIds(t, login.check.user) == Ids(LiveList(s, login.check, now)) + {|s|}
            && |OpenIds(t, login.check.user)| <= login.max
  {
    var c := login.check;
    var live := LiveList(s, c, now);
    var cleaned := Clean(s, c, now);
    var slot := FirstFree(SlotsOf(live), 0, login.max).value;
    var x := NewSession(login, slot, now);
    FirstFreeFails(SlotsOf(live), 0, login.max);
    assert (cleaned + [x])[|s|] == x;
    CleanEnds(s, c, now);
    EndingKeepsValid(s, cleaned);
    forall i | 0 <= i < |s| ensures !Clash(cleaned[i], x) {
      FreeSlotClashesNot(s, login, now, slot, i);
    }
    GrantIsValid(cleaned, x);
    LiveFacts(s, c, now);
    CleanOpens(s, c, now);
    OpenAppend(cleaned, x, c.user);
    IdsCount(s, live);
  }

  lemma GrantIsValid(s: Sessions, x: Session)
    requires Valid(s) && Bounded(x) && forall i :: 0 <= i < |s| ==> !Clash(s[i], x)
    ensures Valid(s + [x])
  {}

  /**
   * A login that is let in leaves at most `max` open sessions of the user, its own among them, each in its own slot;
   * every other session is untouched or has ended.
   */
  lemma GrantKeepsLimit(s: Sessions, login: Login, first: int, second: int)
    requires Valid(s) && DemoKeepsShort(login) && Allocate(s, login, first, second).Granted?
    ensures var t := Allocate(s, login, first, second).sessions;
            && |t| == |s| + 1 && AllOnlyEnd(s, t) && Valid(t)
            && |OpenIds(t, login.check.user)| <= login.max && |s| in OpenIds(t, login.check.user)
  {
    if Pass(s, login, first).Again? {
      var u := Pass(s, login, first).sessions;
      PassEnds(s, login, first);
      EndingKeepsValid(s, u);
      GrantFits(u, login, second);
      var t := Allocate(s, login, first, second).sessions;
      forall i | 0 <= i < |s| ensures OnlyEnds(s[i], t[i]) {
        assert OnlyEnds(s[i], u[i]) && OnlyEnds(u[i], t[i]);
      }
    } else {
      GrantFits(s, login, first);
    }
  }

  lemma OldestFirst(live: seq<Entry>, k: nat, a: Entry, b: Entry)
    requires Sorted(SeenBefore, live) && k <= |live| && a in live[..k] && b in live[k..]
    ensures a.session.lastSeenAt <= b.session.lastSeenAt
  {}

  /** Of the live sessions, one that is superseded was never seen later than one that stays. */
  lemma LeastRecentlySeenGo(s: Sessions, login: Login, now: int, i: nat, j: nat)
    requires Pass(s, login, now).Again? && i < |s| && j < |s|
    requires Live(s[i], login.check, now) && Live(s[j], login.check, now)
    requires var t := Pass(s, login, now).sessions; t[i].ended.Some? && t[j].ended.None?
    ensures s[i].lastSeenAt <= s[j].lastSeenAt
  {
    var live := LiveList(s, login.check, now);
    var t := Pass(s, login, now).sessions;
    AgainLeavesFewer(s, login, now);
    LiveFacts(s, login.check, now);
    var k := Excess(live, login.max);
    assert j in OpenIds(t, login.check.user) && i !in OpenIds(t, login.check.user);
    WhichPart(s, live, k, i, j);
    OldestFirst(live, k, Entry(i, s[i]), Entry(j, s[j]));
  }

  lemma WhichPart(s: Sessions, live: seq<Entry>, k: nat, i: nat, j: nat)
    requires k <= |live| && i < |s| && j < |s| && forall e :: e in live ==> e.id < |s| && e.session == s[e.id]
    requires Entry(i, s[i]) in live && i !in Ids(live[k..]) && j in Ids(live[k..])
    ensures Entry(i, s[i]) in live[..k] && Entry(j, s[j]) in live[k..]
  {}

  // ----- logging in, being seen, ending

  datatype Tenant = Tenant(allowed: set<string>, max: nat, block: bool, idleMinutes: int)

  datatype SignIn = SignIn(user: string, how: string, demoEligible: bool, devBypass: bool)

  predicate IsSecondFactor(how: string) {
    how == "firebase_mfa" || how == "risk_sense_otp"
  }

  function DemoIdle(idleMinutes: int): int {
    if DEMO_IDLE < idleMinutes then DEMO_IDLE else idleMinutes
  }

  /** The public demo has its own limit, blocks further logins and idles out sooner. */
  function LoginOf(who: SignIn, tenant: Tenant): Login {
    var demo := who.how == "public_demo";
    var policy := Policy(who.devBypass, demo && who.demoEligible, demo);
    Login(Check(who.user, tenant.allowed, policy), who.how, IsSecondFactor(who.how),
          if demo then DEMO_MAX else tenant.max,
          if demo then true else tenant.block,
          if demo then DemoIdle(tenant.idleMinutes) else tenant.idleMinutes)
  }

  function SignedIn(s: Sessions, who: SignIn, tenant: Tenant, first: int, second: int): Outcome {
    var login := LoginOf(who, tenant);
    if !Satisfies(Some(Assurance(who.how, IsSecondFactor(who.how))), tenant.allowed, login.check.policy)
    then MfaRequired
    else Allocate(s, login, first, second)
  }

  datatype Seen = Invalid | Expired(sessions: Sessions) | Alive(sessions: Sessions)

  predicate IsOver(x: Session, now: int) {
    x.expiresAt <= now || (x.absolute.Some? && x.absolute.value <= now)
  }

  predicate Trusted(x: Session, tenant: Tenant, policy: Policy) {
    && x.assurance.Some?
    && !(x.assurance.value.how == "public_demo" && x.absolute.None?)
    && !(x.assurance.value.how == "development_bypass" && !policy.allowDevelopmentBypass)
    && Satisfies(x.assurance, tenant.allowed, policy)
  }

  /** The expiry slides with every request, but never past the absolute limit. */
  function Extended(x: Session, now: int, tenant: Tenant): Session
    requires x.assurance.Some?
  {
    var idle := if x.assurance.value.how == "public_demo" then DemoIdle(tenant.idleMinutes) else tenant.idleMinutes;
    var sliding := now + idle * MINUTE;
    x.(lastSeenAt := now,
       expiresAt := if x.absolute.Some? && x.absolute.value < sliding then x.absolute.value else sliding)
  }

  function Touched(s: Sessions, id: nat, user: string, now: int, tenant: Tenant, policy: Policy): Seen {
    if id >= |s| || !Open(s[id], user) then Invalid
    else if IsOver(s[id], now) then Expired(Terminate(s, {id}, Timeout))
    else if !Trusted(s[id], tenant, policy) then Invalid
    else Alive(s[id := Extended(s[id], now, tenant)])
  }

  /** A touch succeeds only before the absolute limit, and leaves the expiry within it. */
  lemma TouchStaysWithin(s: Sessions, id: nat, user: string, now: int, tenant: Tenant, policy: Policy)
    requires Touched(s, id, user, now, tenant, policy).Alive?
    ensures id < |s| && s[id].ended.None? && s[id].user == user
    ensures var x := Touched(s, id, user, now, tenant, policy).sessions[id];
            && x.absolute == s[id].absolute
            && (x.absolute.Some? ==> now < x.absolute.value && x.expiresAt <= x.absolute.value)
  {}

  datatype Op =
    | OpSignIn(who: SignIn, tenant: Tenant, first: int, second: int)
    | OpTouch(id: nat, user: string, now: int, tenant: Tenant, policy: Policy)
    | OpEnd(id: nat, reason: Reason)
    | OpEndAll(user: string, reason: Reason)

  ghost function Step(s: Sessions, op: Op): Sessions {
    match op
    case OpSignIn(who, tenant, first, second) =>
      var outcome := SignedIn(s, who, tenant, first, second);
      if outcome.Granted? then outcome.sessions else s
    case OpTouch(id, user, now, tenant, policy) =>
      var seen := Touched(s, id, user, now, tenant, policy);
      if seen.Invalid? then s else seen.sessions
    case OpEnd(id, reason) => Terminate(s, {id}, reason)
    case OpEndAll(user, reason) => Terminate(s, OpenIds(s, user), reason)
  }

  ghost function Run(s: Sessions, ops: seq<Op>): Sessions {
    if ops == [] then s else Step(Run(s, ops[..|ops| - 1]), ops[|ops| - 1])
  }

  /** Ended sessions stay as they are, and no session's owner, slot or absolute limit changes. */
  predicate Outlives(a: Session, b: Session) {
    && b.user == a.user && b.slot == a.slot && b.absolute == a.absolute
    && (a.ended.Some? ==> b == a)
  }

  ghost predicate AllOutlive(s: Sessions, t: Sessions) {
    |s| <= |t| && forall i :: 0 <= i < |s| ==> Outlives(s[i], t[i])
  }

  lemma TerminateEnds(s: Sessions, ids: set<nat>, reason: Reason)
    ensures AllOnlyEnd(s, Terminate(s, ids, reason))
  {}

  lemma ReplaceKeepsValid(s: Sessions, id: nat, x: Session)
    requires Valid(s) && id < |s| && Bounded(x) && x.user == s[id].user && x.slot == s[id].slot
             && x.ended == s[id].ended
    ensures Valid(s[id := x])
  {}

  lemma StepKeepsValid(s: Sessions, op: Op)
    requires Valid(s)
    ensures Valid(Step(s, op)) && AllOutlive(s, Step(s, op))
  {
    match op
    case OpSignIn(who, tenant, first, second) =>
      if SignedIn(s, who, tenant, first, second).Granted? {
        GrantKeepsLimit(s, LoginOf(who, tenant), first, second);
        OnlyEndsOutlives(s, Step(s, op));
      }
    case OpTouch(id, user, now, tenant, policy) =>
      match Touched(s, id, user, now, tenant, policy) {
        case Invalid =>
        case Expired(t) => TerminateEnds(s, {id}, Timeout); EndingKeepsValid(s, t); OnlyEndsOutlives(s, t);
        case Alive(_) => ReplaceKeepsValid(s, id, Extended(s[id], now, tenant));
      }
    case OpEnd(id, reason) =>
      TerminateEnds(s, {id}, reason);
      EndingKeepsValid(s, Step(s, op));
      OnlyEndsOutlives(s, Step(s, op));
    case OpEndAll(user, reason) =>
      TerminateEnds(s, OpenIds(s, user), reason);
      EndingKeepsValid(s, Step(s, op));
      OnlyEndsOutlives(s, Step(s, op));
  }

  lemma OnlyEndsOutlives(s: Sessions, t: Sessions)
    requires AllOnlyEnd(s, t)
    ensures AllOutlive(s, t)
  {}

  /** Over every run: distinct slots, expiries within their limits, and no ended session revived or changed. */
  lemma {:induction false} RunsKeepValid(s: Sessions, ops: seq<Op>)
    requires Valid(s)
    ensures Valid(Run(s, ops)) && AllOutlive(s, Run(s, ops))
  {
    if ops != [] {
      var before := Run(s, ops[..|ops| - 1]);
      RunsKeepValid(s, ops[..|ops| - 1]);
      StepKeepsValid(before, ops[|ops| - 1]);
      forall i | 0 <= i < |s| ensures Outlives(s[i], Run(s, ops)[i]) {
        assert Outlives(s[i], before[i]) && Outlives(before[i], Run(s, ops)[i]);
      }
    }
  }

  /** Every login of the user is held to a limit of at most `limit`. */
  ghost predicate HeldTo(ops: seq<Op>, user: string, limit: nat) {
    forall i :: 0 <= i < |ops| ==> HeldToOne(ops[i], user, limit)
  }

  predicate HeldToOne(op: Op, user: string, limit: nat) {
    op.OpSignIn? && op.who.user == user ==> LoginOf(op.who, op.tenant).max <= limit
  }

  lemma StepKeepsLimit(s: Sessions, op: Op, user: string, limit: nat)
    requires Valid(s) && HeldToOne(op, user, limit) && |OpenIds(s, user)| <= limit
    ensures |OpenIds(Step(s, op), user)| <= limit
  {
    var t := Step(s, op);
    if op.OpSignIn? && SignedIn(s, op.who, op.tenant, op.first, op.second).Granted? {
      GrantKeepsLimit(s, LoginOf(op.who, op.tenant), op.first, op.second);
      if op.who.user != user {
        StrangerOpensNothing(s, LoginOf(op.who, op.tenant), op.first, op.second, user);
        CardinalityMonotone(OpenIds(t, user), OpenIds(s, user));
      }
    } else {
      StepKeepsValid(s, op);
      assert |t| == |s|;
      assert forall i :: 0 <= i < |s| && Open(t[i], user) ==> Outlives(s[i], t[i]);
      CardinalityMonotone(OpenIds(t, user), OpenIds(s, user));
    }
  }

  lemma StrangerOpensNothing(s: Sessions, login: Login, first: int, second: int, user: string)
    requires Valid(s) && DemoKeepsShort(login) && login.check.user != user && Allocate(s, login, first, second).Granted?
    ensures OpenIds(Allocate(s, login, first, second).sessions, user) <= OpenIds(s, user)
  {
    var t := Allocate(s, login, first, second).sessions;
    GrantKeepsLimit(s, login, first, second);
    assert t[|s|].user == login.check.user;
    assert forall i :: 0 <= i < |s| ==> OnlyEnds(s[i], t[i]);
  }

  /** Over every run an account never has more open sessions than its logins were held to. */
  lemma {:induction false} RunsKeepLimit(ops: seq<Op>, user: string, limit: nat)
    requires HeldTo(ops, user, limit)
    ensures |OpenIds(Run([], ops), user)| <= limit && Valid(Run([], ops))
  {
    if ops != [] {
      RunsKeepLimit(ops[..|ops| - 1], user, limit);
      StepKeepsLimit(Run([], ops[..|ops| - 1]), ops[|ops| - 1], user, limit);
      StepKeepsValid(Run([], ops[..|ops| - 1]), ops[|ops| - 1]);
      assert HeldToOne(ops[|ops| - 1], user, limit);
    } else {
      assert OpenIds([], user) == {};
    }
  }

  // ----- the collection as the service changes it

  predicate StaleNow(x: Session, c: Check, now: int) {
    Open(x, c.user) && x.expiresAt <= now
  }

  predicate UnderAssured(x: Session, c: Check, now: int) {
    Open(x, c.user) && x.expiresAt > now && !Satisfies(x.assurance, c.allowed, c.policy)
  }

  function Picked(s: Sessions, user: string, p: Session -> bool): seq<Entry> {
    Filter((e: Entry) => p(e.session), Active(s, user))
  }

  lemma PickedFacts(s: Sessions, user: string, p: Session -> bool)
    ensures forall e :: e in Picked(s, user, p)
                        <==> e.id < |s| && e.session == s[e.id] && Open(s[e.id], user) && p(s[e.id])
  {
    ActiveFacts(s, user);
    FilterMembers((e: Entry) => p(e.session), Active(s, user));
  }

  lemma PickedIds(s: Sessions, user: string, p: Session -> bool, i: nat)
    requires i < |s|
    ensures i in Ids(Picked(s, user, p)) <==> Open(s[i], user) && p(s[i])
  {
    PickedFacts(s, user, p);
    if Open(s[i], user) && p(s[i]) {
      assert Entry(i, s[i]) in Picked(s, user, p);
    }
  }

  /** Ending the stale sessions and then the under-assured ones is the cleaning. */
  lemma TwoTerminationsClean(s: Sessions, c: Check, now: int)
    ensures var stale := Ids(Picked(s, c.user, (x: Session) => StaleNow(x, c, now)));
            var under := Ids(Picked(s, c.user, (x: Session) => UnderAssured(x, c, now)));
            Terminate(Terminate(s, stale, Timeout), under, Superseded) == Clean(s, c, now)
  {
    var stale := Ids(Picked(s, c.user, (x: Session) => StaleNow(x, c, now)));
    var under := Ids(Picked(s, c.user, (x: Session) => UnderAssured(x, c, now)));
    var t := Terminate(Terminate(s, stale, Timeout), under, Superseded);
    forall i | 0 <= i < |s| ensures t[i] == Clean(s, c, now)[i] {
      PickedIds(s, c.user, (x: Session) => StaleNow(x, c, now), i);
      PickedIds(s, c.user, (x: Session) => UnderAssured(x, c, now), i);
    }
  }

  class SessionStore {
    var sessions: Sessions

    constructor ()
      ensures sessions == []
    {
      sessions := [];
    }

    /** Ends one session unless it has ended already; says whether it did. */
    method TerminateOne(id: nat, reason: Reason) returns (found: bool)
      modifies this
      ensures sessions == Terminate(old(sessions), {id}, reason)
      ensures found <==> id < |old(sessions)| && old(sessions)[id].ended.None?
    {
      found := id < |sessions| && sessions[id].ended.None?;
      if found {
        sessions := sessions[id := sessions[id].(ended := Some(reason))];
      }
      assert sessions == Terminate(old(sessions), {id}, reason);
    }

    method TerminateEach(list: seq<Entry>, reason: Reason)
      modifies this
      ensures sessions == Terminate(old(sessions), Ids(list), reason)
    {
      ghost var before := sessions;
      assert before == Terminate(before, Ids(list[..0]), reason);
      for k := 0 to |list|
        invariant sessions == Terminate(before, Ids(list[..k]), reason)
      {
        ghost var soFar := sessions;
        var found := TerminateOne(list[k].id, reason);
        assert Ids(list[..k + 1]) == Ids(list[..k]) + {list[k].id};
        assert sessions == Terminate(before, Ids(list[..k + 1]), reason);
      }
      assert list[..|list|] == list;
    }

    method EndAllForUser(user: string, reason: Reason) returns (count: nat)
      modifies this
      ensures sessions == Terminate(old(sessions), OpenIds(old(sessions), user), reason)
      ensures OpenIds(sessions, user) == {} && count == |OpenIds(old(sessions), user)|
    {
      var list := Active(sessions, user);
      ActiveFacts(sessions, user);
      IdsCount(sessions, list);
      assert Ids(list) == OpenIds(sessions, user) by {
        forall i | i in OpenIds(sessions, user) ensures i in Ids(list) {
          assert Entry(i, sessions[i]) in list;
        }
      }
      TerminateEach(list, reason);
      TerminateOpens(old(sessions), OpenIds(old(sessions), user), reason, user);
      count := |list|;
    }

    method Touch(id: nat, user: string, now: int, tenant: Tenant, policy: Policy) returns (ok: bool)
      modifies this
      ensures ok <==> Touched(old(sessions), id, user, now, tenant, policy).Alive?
      ensures match Touched(old(sessions), id, user, now, tenant, policy)
              case Invalid => sessions == old(sessions)
              case Expired(t) => sessions == t
              case Alive(t) => sessions == t
    {
      if id >= |sessions| || sessions[id].user != user || sessions[id].ended.Some? { return false; }
      var session := sessions[id];
      if session.expiresAt <= now || (session.absolute.Some? && session.absolute.value <= now) {
        var found := TerminateOne(id, Timeout);
        return false;
      }
      if session.assurance.None? { return false; }
      var how := session.assurance.value.how;
      if how == "public_demo" && session.absolute.None? { return false; }
      if how == "development_bypass" && !policy.allowDevelopmentBypass { return false; }
      if !Satisfies(session.assurance, tenant.allowed, policy) { return false; }
      session := session.(lastSeenAt := now);
      var idle := if how == "public_demo" then DemoIdle(tenant.idleMinutes) else tenant.idleMinutes;
      var sliding := now + idle * MINUTE;
      var limited := session.absolute.Some? && session.absolute.value < sliding;
      session := session.(expiresAt := if limited then session.absolute.value else sliding);
      sessions := sessions[id := session];
      ok := true;
    }

    /** What every pass does before it decides: read the open sessions and end those that no longer count. */
    method CleanUp(c: Check, now: int) returns (live: seq<Entry>)
      modifies this
      ensures live == LiveList(old(sessions), c, now) && sessions == Clean(old(sessions), c, now)
    {
      var active := Active(sessions, c.user);
      var stale := Filter((e: Entry) => StaleNow(e.session, c, now), active);
      var under := Filter((e: Entry) => UnderAssured(e.session, c, now), active);
      live := Filter((e: Entry) => Live(e.session, c, now), active);
      assert stale == Picked(sessions, c.user, (x: Session) => StaleNow(x, c, now)) by {
        FilterSame((e: Entry) => StaleNow(e.session, c, now), (e: Entry) =>
          ((x: Session) => StaleNow(x, c, now))(e.session), active);
      }
      assert under == Picked(sessions, c.user, (x: Session) => UnderAssured(x, c, now)) by {
        FilterSame((e: Entry) => UnderAssured(e.session, c, now), (e: Entry) =>
          ((x: Session) => UnderAssured(x, c, now))(e.session), active);
      }
      TwoTerminationsClean(sessions, c, now);
      TerminateEach(stale, Timeout);
      TerminateEach(under, Superseded);
    }

    /** One pass: refuse, make room and go round again, or take the first free slot. */
    method TryPass(login: Login, now: int) returns (result: PassResult)
      modifies this
      ensures result == Pass(old(sessions), login, now)
      ensures result.Again? ==> sessions == result.sessions
      ensures result.Stop? && result.outcome.Granted? ==> sessions == result.outcome.sessions
    {
      var live := CleanUp(login.check, now);
      if |live| >= login.max {
        if login.block { return Stop(Blocked(|live|)); }
        TerminateEach(live[..Excess(live, login.max)], Superseded);
        return Again(sessions);
      }
      var slot := FirstFree(SlotsOf(live), 0, login.max);
      if slot.None? { return Again(sessions); }
      sessions := sessions + [NewSession(login, slot.value, now)];
      return Stop(Granted(sessions));
    }

    /** The bounded loop of passes; a refusal rolls everything back. `clock` gives each pass its moment. */
    method Create(who: SignIn, tenant: Tenant, clock: nat -> int) returns (outcome: Outcome)
      modifies this
      ensures outcome == SignedIn(old(sessions), who, tenant, clock(0), clock(1))
      ensures sessions == if outcome.Granted? then outcome.sessions else old(sessions)
    {
      var login := LoginOf(who, tenant);
      var proposed := Assurance(who.how, IsSecondFactor(who.how));
      if !Satisfies(Some(proposed), tenant.allowed, login.check.policy) { return MfaRequired; }
      var before := sessions;
      for pass := 0 to login.max + 2
        invariant pass == 0 ==> sessions == before
        invariant pass == 1 ==> Pass(before, login, clock(0)) == Again(sessions)
        invariant pass >= 2 ==> login.max == 0 && Allocate(before, login, clock(0), clock(1)) == Exhausted
      {
        var result := TryPass(login, clock(pass));
        if result.Stop? {
          if !result.outcome.Granted? { sessions := before; }
          return result.outcome;
        }
        if pass == 1 {
          NeverExhausted(before, login, clock(0), clock(1));
        }
      }
      sessions := before;
      outcome := Exhausted;
    }
  }

  lemma {:induction false} FilterSame(p: Entry -> bool, q: Entry -> bool, a: seq<Entry>)
    requires forall e :: p(e) == q(e)
    ensures Filter(p, a) == Filter(q, a)
  {
    if a != [] {
      FilterSame(p, q, a[1..]);
    }
  }
}
