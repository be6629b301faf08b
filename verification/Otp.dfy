/**
 * One-time codes of one account (src/modules/auth/otp.service.ts): issuing under a lock with a cooldown and an hourly
 * limit, and verifying the active code. Requests wait for the mail provider between the check and the issue; wrong
 * guesses and other requests may come in between. Times are milliseconds.
 */
module Otp {
  import opened Prelude

  const HOUR := 60 * 60 * 1000
  const MAX_ATTEMPTS := 5
  const LOCK_TTL := 5 * 60 * 1000

  datatype Limits = Limits(maxPerHour: nat, cooldown: nat)

  datatype Code =
    Code(digest: string, createdAt: int, expiresAt: int, attempts: nat, consumedAt: Option<int>,
      supersededAt: Option<int>)

  datatype Lock = Lock(owner: nat, expiresAt: int)

  /** A request that passed the checks and waits for the mail: history of when, and of how many codes there were. */
  datatype Pending = Pending(decidedAt: int, seen: nat)

  /** History variables: the codes that let somebody in, in order, and the codes whose request had lost its lock. */
  datatype State = State(
    codes: seq<Code>,
    lock: Option<Lock>,
    pending: map<nat, Pending>,
    now: int,
    accepted: seq<nat>,
    late: set<nat>)

  predicate Holds(s: State, owner: nat) {
    s.lock.Some? && s.lock.value.owner == owner
  }

  predicate IsActive(c: Code) {
    c.consumedAt.None? && c.supersededAt.None?
  }

  /** How many codes were issued in the hour up to `now`. */
  function Recent(codes: seq<Code>, now: int): nat {
    if codes == [] then 0
    else Recent(codes[..|codes| - 1], now) + if codes[|codes| - 1].createdAt >= now - HOUR then 1 else 0
  }

  /** The newest code is recent, unused and younger than the cooldown. */
  predicate CoolingDown(codes: seq<Code>, now: int, limits: Limits) {
    codes != []
    && var last := codes[|codes| - 1];
       last.createdAt >= now - HOUR && last.consumedAt.None? && now - last.createdAt < limits.cooldown
  }

  predicate MayIssue(codes: seq<Code>, now: int, limits: Limits) {
    !CoolingDown(codes, now, limits) && Recent(codes, now) < limits.maxPerHour
  }

  function Supersede(codes: seq<Code>, at: int): (r: seq<Code>)
    ensures |r| == |codes|
  {
    seq(|codes|, i requires 0 <= i < |codes| =>
      if IsActive(codes[i]) then codes[i].(supersededAt := Some(at)) else codes[i])
  }

  /** The newest active code. */
  function ActiveCode(codes: seq<Code>): (i: Option<nat>)
    ensures i.Some? ==> i.value < |codes| && IsActive(codes[i.value])
  {
    if codes == [] then None
    else if IsActive(codes[|codes| - 1]) then Some(|codes| - 1)
    else ActiveCode(codes[..|codes| - 1])
  }

  datatype Verdict = Accepted | Wrong | NoActiveCode | CodeExpired | TooManyAttempts

  function Verify(codes: seq<Code>, digest: string, now: int): (Verdict, seq<Code>) {
    match ActiveCode(codes)
    case None => (NoActiveCode, codes)
    case Some(i) =>
      var c := codes[i];
      if c.expiresAt <= now then (CodeExpired, codes)
      else if c.attempts >= MAX_ATTEMPTS then (TooManyAttempts, codes)
      else if c.digest != digest then (Wrong, codes[i := c.(attempts := c.attempts + 1)])
      else (Accepted, codes[i := c.(consumedAt := Some(now))])
  }

  // ----- the account as a state machine

  datatype Op =
    | Ask(owner: nat, at: int)
    | Issue(owner: nat, at: int, digest: string, ttl: nat)
    | MailFails(owner: nat, at: int)
    | PurgeLock(at: int)
    | Try(at: int, digest: string)

  predicate Enabled(s: State, op: Op) {
    && op.at >= s.now
    && match op
       case Ask(owner, _) => owner !in s.pending && !Holds(s, owner)
       case Issue(owner, _, _, _) => owner in s.pending
       case MailFails(owner, _) => owner in s.pending
       case _ => true
  }

  /** A lock is released only by the request that took it. */
  function Released(lock: Option<Lock>, owner: nat): Option<Lock> {
    if lock.Some? && lock.value.owner == owner then None else lock
  }

  function Step(s: State, op: Op, limits: Limits): State {
    match op
    case Ask(owner, at) =>
      if s.lock.Some? || !MayIssue(s.codes, at, limits) then s.(now := at)
      else
        s.(lock := Some(Lock(owner, at + LOCK_TTL)), pending := s.pending[owner := Pending(at, |s.codes|)], now := at)
    case Issue(owner, at, digest, ttl) =>
      s.(codes := Supersede(s.codes, at) + [Code(digest, at, at + ttl, 0, None, None)],
         lock := Released(s.lock, owner), pending := s.pending - {owner}, now := at,
         late := if Holds(s, owner) then s.late else s.late + {|s.codes|})
    case MailFails(owner, at) => s.(lock := Released(s.lock, owner), pending := s.pending - {owner}, now := at)
    case PurgeLock(at) => s.(lock := if s.lock.Some? && s.lock.value.expiresAt <= at then None else s.lock, now := at)
    case Try(at, digest) =>
      var (verdict, codes) := Verify(s.codes, digest, at);
      s.(codes := codes, now := at,
         accepted := if verdict == Accepted then s.accepted + [ActiveCode(s.codes).value] else s.accepted)
  }

  /** No lock is purged from under a request that still waits for its mail. */
  predicate MailInTime(s: State, op: Op) {
    op.PurgeLock? && s.lock.Some? && s.lock.value.expiresAt <= op.at ==> s.lock.value.owner !in s.pending
  }

  predicate Possible(s: State, ops: seq<Op>, limits: Limits)
    decreases |ops|
  {
    ops == [] || (Enabled(s, ops[0]) && Possible(Step(s, ops[0], limits), ops[1..], limits))
  }

  function Run(s: State, ops: seq<Op>, limits: Limits): State
    requires Possible(s, ops, limits)
    decreases |ops|
  {
    if ops == [] then s else Run(Step(s, ops[0], limits), ops[1..], limits)
  }

  predicate AllMailInTime(s: State, ops: seq<Op>, limits: Limits)
    requires Possible(s, ops, limits)
    decreases |ops|
  {
    ops == [] || (MailInTime(s, ops[0]) && AllMailInTime(Step(s, ops[0], limits), ops[1..], limits))
  }

  function NoCodes(now: int): State {
    State([], None, map[], now, [], {})
  }

  // ----- what holds of every run, locks or no locks

  /** Only the newest code may be active, and no code has taken more than the permitted wrong guesses. */
  ghost predicate CodesOk(codes: seq<Code>) {
    && (forall i :: 0 <= i < |codes| - 1 ==> !IsActive(codes[i]))
    && (forall i :: 0 <= i < |codes| ==> codes[i].attempts <= MAX_ATTEMPTS)
  }

  /** Every code let in at most once, and exactly the consumed ones did, in time and not superseded. */
  ghost predicate AcceptedOk(s: State) {
    && Distinct(s.accepted)
    && (forall i: nat :: i in s.accepted <==> i < |s.codes| && s.codes[i].consumedAt.Some?)
    && (forall i :: 0 <= i < |s.codes| ==> UsedInTime(s.codes[i]))
  }

  predicate UsedInTime(c: Code) {
    c.consumedAt.Some? ==> c.consumedAt.value < c.expiresAt && c.supersededAt.None?
  }

  lemma OnlyNewestActive(codes: seq<Code>)
    requires CodesOk(codes)
    ensures ActiveCode(codes).Some? ==> ActiveCode(codes).value == |codes| - 1
  {}

  lemma StepKeepsCodes(s: State, op: Op, limits: Limits)
    requires Enabled(s, op) && CodesOk(s.codes) && AcceptedOk(s)
    ensures CodesOk(Step(s, op, limits).codes) && AcceptedOk(Step(s, op, limits))
  {
    OnlyNewestActive(s.codes);
  }

  /** In every run at most one code is active, takes at most five wrong guesses, and lets in at most once, in time. */
  lemma {:induction false} RunsKeepCodes(s: State, ops: seq<Op>, limits: Limits)
    requires Possible(s, ops, limits) && CodesOk(s.codes) && AcceptedOk(s)
    ensures CodesOk(Run(s, ops, limits).codes) && AcceptedOk(Run(s, ops, limits))
    decreases |ops|
  {
    if ops != [] {
      StepKeepsCodes(s, ops[0], limits);
      RunsKeepCodes(Step(s, ops[0], limits), ops[1..], limits);
    }
  }

  // ----- the limits in every run: only codes issued without the lock exceed them

  ghost predicate InOrder(codes: seq<Code>, now: int) {
    && (forall i, j :: 0 <= i < j < |codes| ==> codes[i].createdAt <= codes[j].createdAt)
    && (forall i :: 0 <= i < |codes| ==> codes[i].createdAt <= now)
  }

  /** Which of the first `n` codes were issued at or after `from`. */
  function Since(codes: seq<Code>, from: int, n: nat): set<nat>
    requires n <= |codes|
  {
    set i: nat | i < n && codes[i].createdAt >= from
  }

  predicate SameTimes(codes: seq<Code>, next: seq<Code>) {
    |codes| <= |next| && forall i :: 0 <= i < |codes| ==> next[i].createdAt == codes[i].createdAt
  }

  lemma SinceSame(codes: seq<Code>, next: seq<Code>, from: int, n: nat)
    requires SameTimes(codes, next) && n <= |codes|
    ensures Since(next, from, n) == Since(codes, from, n)
  {}

  lemma SubsetSize<T>(a: set<T>, b: set<T>)
    requires a <= b
    ensures |a| <= |b|
  {
    assert b == a + (b - a);
  }

  lemma {:induction false} RecentIsSince(codes: seq<Code>, now: int)
    ensures Recent(codes, now) == |Since(codes, now - HOUR, |codes|)|
  {
    if codes != [] {
      var n := |codes| - 1;
      RecentIsSince(codes[..n], now);
      SinceSame(codes[..n], codes, now - HOUR, n);
      assert Since(codes, now - HOUR, n + 1)
          == Since(codes, now - HOUR, n) + if codes[n].createdAt >= now - HOUR then {n} else {};
    }
  }

  /** When its request was let through, fewer than `max` codes were recent; those issued since have lost their lock. */
  ghost predicate HadRoom(s: State, p: Pending, limits: Limits) {
    && p.decidedAt <= s.now && p.seen <= |s.codes|
    && (forall i: nat :: p.seen <= i < |s.codes| ==> i in s.late)
    && |Since(s.codes, p.decidedAt - HOUR, p.seen)| < limits.maxPerHour
  }

  /** In the hour up to code `j` fewer than `max` others were issued in time. */
  ghost predicate FewInTime(codes: seq<Code>, late: set<nat>, j: nat, limits: Limits)
    requires j < |codes|
  {
    |Since(codes, codes[j].createdAt - HOUR, j) - late| < limits.maxPerHour
  }

  /** Adding late codes, or changing anything but the time of a code, takes nothing away. */
  lemma FewInTimeStays(s: State, t: State, j: nat, limits: Limits)
    requires SameTimes(s.codes, t.codes) && j < |s.codes| && FewInTime(s.codes, s.late, j, limits) && s.late <= t.late
    ensures FewInTime(t.codes, t.late, j, limits)
  {
    SinceSame(s.codes, t.codes, s.codes[j].createdAt - HOUR, j);
    SubsetSize(Since(t.codes, s.codes[j].createdAt - HOUR, j) - t.late,
      Since(s.codes, s.codes[j].createdAt - HOUR, j) - s.late);
  }

  lemma HadRoomStays(s: State, t: State, p: Pending, limits: Limits)
    requires HadRoom(s, p, limits) && SameTimes(s.codes, t.codes) && s.now <= t.now && s.late <= t.late
    requires forall i: nat :: |s.codes| <= i < |t.codes| ==> i in t.late
    ensures HadRoom(t, p, limits)
  {
    SinceSame(s.codes, t.codes, p.decidedAt - HOUR, p.seen);
  }

  /** The holder of the lock may issue: what is recent and in time was there when it was let through. */
  lemma HolderIsInTime(s: State, t: State, p: Pending, at: int, limits: Limits)
    requires HadRoom(s, p, limits) && SameTimes(s.codes, t.codes) && |t.codes| == |s.codes| + 1 && t.late == s.late
    requires t.codes[|s.codes|].createdAt == at && s.now <= at
    ensures FewInTime(t.codes, t.late, |s.codes|, limits)
  {
    var n := |s.codes|;
    var before := Since(s.codes, p.decidedAt - HOUR, p.seen);
    SinceSame(s.codes, t.codes, at - HOUR, n);
    forall i | i in Since(t.codes, at - HOUR, n) - t.late ensures i in before {
      assert i < p.seen;
    }
    SubsetSize(Since(t.codes, at - HOUR, n) - t.late, before);
  }

  ghost predicate AllInTime(codes: seq<Code>, late: set<nat>, limits: Limits) {
    forall j: nat {:trigger FewInTime(codes, late, j, limits)} :: j < |codes| && j !in late
      ==> FewInTime(codes, late, j, limits)
  }

  ghost predicate HolderHadRoom(s: State, limits: Limits) {
    s.lock.Some? ==> s.lock.value.owner in s.pending && HadRoom(s, s.pending[s.lock.value.owner], limits)
  }

  ghost predicate LimitInv(s: State, limits: Limits) {
    && InOrder(s.codes, s.now)
    && (forall i :: i in s.late ==> i < |s.codes|)
    && HolderHadRoom(s, limits)
    && AllInTime(s.codes, s.late, limits)
  }

  lemma IssueKeepsInTime(s: State, owner: nat, at: int, digest: string, ttl: nat, limits: Limits)
    requires HolderHadRoom(s, limits) && AllInTime(s.codes, s.late, limits) && Enabled(s, Issue(owner, at, digest, ttl))
    ensures var t := Step(s, Issue(owner, at, digest, ttl), limits); AllInTime(t.codes, t.late, limits)
  {
    var t := Step(s, Issue(owner, at, digest, ttl), limits);
    assert SameTimes(s.codes, t.codes);
    forall j: nat | j < |t.codes| && j !in t.late ensures FewInTime(t.codes, t.late, j, limits) {
      if j < |s.codes| {
        FewInTimeStays(s, t, j, limits);
      } else {
        HolderIsInTime(s, t, s.pending[owner], at, limits);
      }
    }
  }

  lemma IssueKeepsRoom(s: State, owner: nat, at: int, digest: string, ttl: nat, limits: Limits)
    requires HolderHadRoom(s, limits) && Enabled(s, Issue(owner, at, digest, ttl))
    ensures HolderHadRoom(Step(s, Issue(owner, at, digest, ttl), limits), limits)
  {
    var t := Step(s, Issue(owner, at, digest, ttl), limits);
    if t.lock.Some? {
      HadRoomStays(s, t, s.pending[s.lock.value.owner], limits);
    }
  }

  lemma OtherStepsKeepInTime(s: State, op: Op, limits: Limits)
    requires AllInTime(s.codes, s.late, limits) && Enabled(s, op) && !op.Issue?
    ensures var t := Step(s, op, limits); AllInTime(t.codes, t.late, limits)
  {
    var t := Step(s, op, limits);
    assert SameTimes(s.codes, t.codes) && |t.codes| == |s.codes| && t.late == s.late;
    forall j: nat | j < |t.codes| && j !in t.late ensures FewInTime(t.codes, t.late, j, limits) {
      FewInTimeStays(s, t, j, limits);
    }
  }

  lemma OtherStepsKeepRoom(s: State, op: Op, limits: Limits)
    requires HolderHadRoom(s, limits) && Enabled(s, op) && !op.Issue?
    ensures HolderHadRoom(Step(s, op, limits), limits)
  {
    if s.lock.Some? {
      HadRoomStays(s, Step(s, op, limits), s.pending[s.lock.value.owner], limits);
    } else if op.Ask? {
      RecentIsSince(s.codes, op.at);
    }
  }

  lemma StepKeepsOrder(s: State, op: Op, limits: Limits)
    requires InOrder(s.codes, s.now) && Enabled(s, op)
    ensures InOrder(Step(s, op, limits).codes, Step(s, op, limits).now)
  {}

  lemma StepKeepsLimit(s: State, op: Op, limits: Limits)
    requires LimitInv(s, limits) && Enabled(s, op)
    ensures LimitInv(Step(s, op, limits), limits)
  {
    StepKeepsOrder(s, op, limits);
    match op
    case Issue(owner, at, digest, ttl) =>
      IssueKeepsInTime(s, owner, at, digest, ttl, limits);
      IssueKeepsRoom(s, owner, at, digest, ttl, limits);
    case _ =>
      OtherStepsKeepInTime(s, op, limits);
      OtherStepsKeepRoom(s, op, limits);
  }

  lemma {:induction false} RunsKeepLimit(s: State, ops: seq<Op>, limits: Limits)
    requires Possible(s, ops, limits) && LimitInv(s, limits)
    ensures LimitInv(Run(s, ops, limits), limits)
    decreases |ops|
  {
    if ops != [] {
      StepKeepsLimit(s, ops[0], limits);
      RunsKeepLimit(Step(s, ops[0], limits), ops[1..], limits);
    }
  }

  lemma NothingIssued(now: int, limits: Limits)
    ensures LimitInv(NoCodes(now), limits)
  {}

  /** The codes issued in the hour that begins at `from`. */
  function Window(codes: seq<Code>, from: int): set<nat> {
    set i: nat | i < |codes| && from <= codes[i].createdAt <= from + HOUR
  }

  /** The last member of a set of indices. */
  lemma {:induction false} LastOf(indices: set<nat>) returns (last: nat)
    requires indices != {}
    ensures last in indices && forall i :: i in indices ==> i <= last
    decreases |indices|
  {
    var some :| some in indices;
    var rest := indices - {some};
    assert indices == rest + {some};
    if rest == {} {
      last := some;
    } else {
      var other := LastOf(rest);
      last := if some > other then some else other;
    }
  }

  lemma InTimeBeforeLast(s: State, from: int, j: nat)
    requires j in Window(s.codes, from) - s.late
    requires forall i :: i in Window(s.codes, from) - s.late ==> i <= j
    ensures |Window(s.codes, from) - s.late| <= |Since(s.codes, s.codes[j].createdAt - HOUR, j) - s.late| + 1
  {
    var inTime := Window(s.codes, from) - s.late;
    SubsetSize(inTime - {j}, Since(s.codes, s.codes[j].createdAt - HOUR, j) - s.late);
  }

  lemma SplitSize<T>(a: set<T>, b: set<T>)
    ensures |a| == |a - b| + |a * b|
  {
    assert a == (a - b) + a * b;
  }

  lemma InTimeIsFew(s: State, limits: Limits, from: int)
    requires AllInTime(s.codes, s.late, limits) && Window(s.codes, from) - s.late != {}
    ensures |Window(s.codes, from) - s.late| <= limits.maxPerHour
  {
    var j := LastOf(Window(s.codes, from) - s.late);
    assert FewInTime(s.codes, s.late, j, limits);
    InTimeBeforeLast(s, from, j);
  }

  lemma WindowIsBounded(s: State, limits: Limits, from: int)
    requires LimitInv(s, limits)
    ensures |Window(s.codes, from)| <= limits.maxPerHour + |Window(s.codes, from) * s.late|
  {
    SplitSize(Window(s.codes, from), s.late);
    if Window(s.codes, from) - s.late != {} {
      InTimeIsFew(s, limits, from);
    }
  }

  /**
   * In every run, however slow the mail: any window of one hour holds at most `maxPerHour` codes and those whose
   * request had lost its lock.
   */
  lemma EveryWindowIsBounded(now: int, ops: seq<Op>, limits: Limits, from: int)
    requires Possible(NoCodes(now), ops, limits)
    ensures var t := Run(NoCodes(now), ops, limits);
            |Window(t.codes, from)| <= limits.maxPerHour + |Window(t.codes, from) * t.late|
  {
    NothingIssued(now, limits);
    RunsKeepLimit(NoCodes(now), ops, limits);
    WindowIsBounded(Run(NoCodes(now), ops, limits), limits, from);
  }

  // ----- the cooldown in every run

  predicate CooledAt(codes: seq<Code>, i: nat, limits: Limits)
    requires i + 1 < |codes|
  {
    codes[i].consumedAt.Some? || codes[i + 1].createdAt - codes[i].createdAt >= limits.cooldown
  }

  predicate WaitedFor(s: State, p: Pending, limits: Limits) {
    && p.decidedAt <= s.now && p.seen <= |s.codes|
    && (forall i: nat :: p.seen <= i < |s.codes| ==> i in s.late)
    && (p.seen > 0 ==> var last := s.codes[p.seen - 1];
                       last.consumedAt.Some? || p.decidedAt - last.createdAt >= limits.cooldown)
  }

  /** Of two codes in a row that were issued in time, the second follows an unused first only after the cooldown. */
  ghost predicate CooledButForLate(codes: seq<Code>, late: set<nat>, limits: Limits) {
    forall i: nat {:trigger CooledAt(codes, i, limits)} ::
      i + 1 < |codes| && i !in late && i + 1 !in late ==> CooledAt(codes, i, limits)
  }

  ghost predicate CoolInv(s: State, limits: Limits) {
    && CooledButForLate(s.codes, s.late, limits)
    && (s.lock.Some? ==> s.lock.value.owner in s.pending && WaitedFor(s, s.pending[s.lock.value.owner], limits))
  }

  predicate KeepsUses(codes: seq<Code>, next: seq<Code>) {
    && SameTimes(codes, next)
    && forall i :: 0 <= i < |codes| && codes[i].consumedAt.Some? ==> next[i].consumedAt.Some?
  }

  lemma WaitedForStays(s: State, t: State, p: Pending, limits: Limits)
    requires WaitedFor(s, p, limits) && KeepsUses(s.codes, t.codes) && s.now <= t.now && s.late <= t.late
    requires forall i: nat :: |s.codes| <= i < |t.codes| ==> i in t.late
    ensures WaitedFor(t, p, limits)
  {}

  lemma IssueKeepsCool(s: State, owner: nat, at: int, digest: string, ttl: nat, limits: Limits)
    requires CoolInv(s, limits) && Enabled(s, Issue(owner, at, digest, ttl))
    ensures CoolInv(Step(s, Issue(owner, at, digest, ttl), limits), limits)
  {
    var t := Step(s, Issue(owner, at, digest, ttl), limits);
    assert KeepsUses(s.codes, t.codes);
    forall i: nat | i + 1 < |t.codes| && i !in t.late && i + 1 !in t.late ensures CooledAt(t.codes, i, limits) {
      if i + 1 < |s.codes| {
        assert CooledAt(s.codes, i, limits);
      } else {
        assert s.pending[owner].seen == |s.codes|;
      }
    }
    if t.lock.Some? {
      WaitedForStays(s, t, s.pending[s.lock.value.owner], limits);
    }
  }

  lemma StepKeepsCool(s: State, op: Op, limits: Limits)
    requires CoolInv(s, limits) && Enabled(s, op) && limits.cooldown <= HOUR
    ensures CoolInv(Step(s, op, limits), limits)
  {
    var t := Step(s, op, limits);
    if op.Issue? {
      IssueKeepsCool(s, op.owner, op.at, op.digest, op.ttl, limits);
    } else {
      assert KeepsUses(s.codes, t.codes);
      forall i: nat | i + 1 < |t.codes| && i !in t.late && i + 1 !in t.late ensures CooledAt(t.codes, i, limits) {
        assert CooledAt(s.codes, i, limits);
      }
    }
  }

  lemma {:induction false} RunsKeepCool(s: State, ops: seq<Op>, limits: Limits)
    requires Possible(s, ops, limits) && CoolInv(s, limits) && limits.cooldown <= HOUR
    ensures CoolInv(Run(s, ops, limits), limits)
    decreases |ops|
  {
    if ops != [] {
      StepKeepsCool(s, ops[0], limits);
      RunsKeepCool(Step(s, ops[0], limits), ops[1..], limits);
    }
  }

  // ----- while no mail outlasts the lock

  /** Only the holder of the lock waits for mail, and no code was issued without it. */
  ghost predicate OnlyHolders(s: State) {
    s.late == {} && forall owner :: owner in s.pending ==> Holds(s, owner)
  }

  lemma {:induction false} NothingLate(s: State, ops: seq<Op>, limits: Limits)
    requires Possible(s, ops, limits) && AllMailInTime(s, ops, limits) && OnlyHolders(s)
    ensures OnlyHolders(Run(s, ops, limits))
    decreases |ops|
  {
    if ops != [] {
      NothingLate(Step(s, ops[0], limits), ops[1..], limits);
    }
  }

  /** Any code is more than an hour before the one `max` places later. */
  ghost predicate Spaced(codes: seq<Code>, limits: Limits) {
    forall i, j :: 0 <= i && i + limits.maxPerHour <= j < |codes| ==> Apart(codes, i, j)
  }

  predicate Apart(codes: seq<Code>, i: nat, j: nat)
    requires i <= j < |codes|
  {
    codes[j].createdAt - codes[i].createdAt > HOUR
  }

  lemma {:induction false} RangeSize(indices: set<nat>, i: nat, j: nat)
    requires i <= j && forall k :: i <= k < j ==> k in indices
    ensures |indices| >= j - i
    decreases j - i
  {
    if i < j {
      RangeSize(indices - {i}, i + 1, j);
    }
  }

  lemma FarApart(codes: seq<Code>, now: int, i: nat, j: nat, limits: Limits)
    requires InOrder(codes, now) && i + limits.maxPerHour <= j < |codes| && FewInTime(codes, {}, j, limits)
    ensures Apart(codes, i, j)
  {
    if !Apart(codes, i, j) {
      var recent := Since(codes, codes[j].createdAt - HOUR, j) - {};
      RangeSize(recent, i, j);
    }
  }

  lemma SpacedWhenInTime(s: State, limits: Limits)
    requires LimitInv(s, limits) && s.late == {}
    ensures Spaced(s.codes, limits)
  {
    forall i, j | 0 <= i && i + limits.maxPerHour <= j < |s.codes| ensures Apart(s.codes, i, j) {
      assert FewInTime(s.codes, s.late, j, limits);
      FarApart(s.codes, s.now, i, j, limits);
    }
  }

  /** While no mail outlasts the lock, any one-hour window holds at most `maxPerHour` codes. */
  lemma HourlyLimitHolds(s: State, ops: seq<Op>, limits: Limits, from: int)
    requires Possible(s, ops, limits) && AllMailInTime(s, ops, limits)
    requires LimitInv(s, limits) && OnlyHolders(s)
    ensures Spaced(Run(s, ops, limits).codes, limits)
    ensures |Window(Run(s, ops, limits).codes, from)| <= limits.maxPerHour
  {
    RunsKeepLimit(s, ops, limits);
    NothingLate(s, ops, limits);
    SpacedWhenInTime(Run(s, ops, limits), limits);
    WindowIsBounded(Run(s, ops, limits), limits, from);
    assert Window(Run(s, ops, limits).codes, from) * {} == {};
  }

  /** A code follows an unused one only after the cooldown. */
  ghost predicate Cooled(codes: seq<Code>, limits: Limits) {
    CooledButForLate(codes, {}, limits)
  }

  /** While no mail outlasts the lock, no code follows an unused one within the cooldown. */
  lemma CooldownHolds(s: State, ops: seq<Op>, limits: Limits)
    requires Possible(s, ops, limits) && AllMailInTime(s, ops, limits)
    requires CoolInv(s, limits) && OnlyHolders(s) && limits.cooldown <= HOUR
    ensures Cooled(Run(s, ops, limits).codes, limits)
  {
    RunsKeepCool(s, ops, limits);
    NothingLate(s, ops, limits);
  }

  // ----- and when one does

  /** A run leads from `s` to `t`. */
  ghost predicate Reaches(s: State, t: State, limits: Limits) {
    exists ops :: RunsTo(s, ops, t, limits)
  }

  predicate RunsTo(s: State, ops: seq<Op>, t: State, limits: Limits) {
    Possible(s, ops, limits) && Run(s, ops, limits) == t
  }

  lemma ReachesSelf(s: State, limits: Limits)
    ensures Reaches(s, s, limits)
  {
    assert RunsTo(s, [], s, limits);
  }

  lemma {:induction false} RunsJoin(s: State, first: seq<Op>, t: State, second: seq<Op>, u: State, limits: Limits)
    requires RunsTo(s, first, t, limits) && RunsTo(t, second, u, limits)
    ensures RunsTo(s, first + second, u, limits)
    decreases |first|
  {
    if first == [] {
      assert first + second == second;
    } else {
      RunsJoin(Step(s, first[0], limits), first[1..], t, second, u, limits);
      assert (first + second)[1..] == first[1..] + second;
    }
  }

  lemma ReachesOnwards(s: State, t: State, u: State, limits: Limits)
    requires Reaches(s, t, limits) && Reaches(t, u, limits)
    ensures Reaches(s, u, limits)
  {
    var first :| RunsTo(s, first, t, limits);
    var second :| RunsTo(t, second, u, limits);
    RunsJoin(s, first, t, second, u, limits);
  }

  lemma ReachesNext(s: State, t: State, op: Op, limits: Limits)
    requires Reaches(s, t, limits) && Enabled(t, op)
    ensures Reaches(s, Step(t, op, limits), limits)
  {
    var u := Step(t, op, limits);
    assert Possible(u, [], limits) && Run(u, [], limits) == u;
    assert [op][1..] == [];
    assert RunsTo(t, [op], u, limits);
    ReachesOnwards(s, t, u, limits);
  }

  /** An owner above all that wait. */
  lemma {:induction false} SomebodyNew(owners: set<nat>) returns (owner: nat)
    ensures forall o :: o in owners ==> o < owner
    decreases |owners|
  {
    if owners == {} {
      owner := 0;
    } else {
      var o :| o in owners;
      var above := SomebodyNew(owners - {o});
      owner := if o < above then above else o + 1;
      assert owners == (owners - {o}) + {o};
    }
  }

  /** The requests that wait for their mail without holding the lock. */
  function Stragglers(s: State): set<nat> {
    set owner | owner in s.pending && !Holds(s, owner)
  }

  /** The last `n` codes were issued within an hour, the newest just now, and no request holds the lock. */
  predicate Burst(s: State, n: nat, begun: int) {
    && s.lock.None? && n <= |s.codes| && s.now - HOUR <= begun <= s.now
    && (forall i :: |s.codes| - n <= i < |s.codes| ==> begun <= s.codes[i].createdAt <= s.now)
    && (forall i :: 0 <= i < |s.codes| - n ==> s.codes[i].createdAt < begun - HOUR)
    && (n > 0 ==> s.codes[|s.codes| - 1].createdAt == s.now && s.codes[|s.codes| - 1].consumedAt.None?)
  }

  lemma BurstIsWindow(s: State, n: nat, begun: int)
    requires Burst(s, n, begun)
    ensures |Window(s.codes, begun)| == n
  {
    var window := Window(s.codes, begun);
    RangeSize(window, |s.codes| - n, |s.codes|);
    AtMost(window, |s.codes| - n, |s.codes|);
  }

  lemma {:induction false} AtMost(indices: set<nat>, i: nat, j: nat)
    requires i <= j && forall k :: k in indices ==> i <= k < j
    ensures |indices| <= j - i
    decreases j - i
  {
    if i < j {
      AtMost(indices - {i}, i + 1, j);
    } else {
      assert indices == {};
    }
  }

  lemma {:induction false} RecentIsBurst(codes: seq<Code>, now: int, n: nat)
    requires n <= |codes| && forall i :: 0 <= i < |codes| - n ==> codes[i].createdAt < now - HOUR
    ensures Recent(codes, now) <= n
  {
    if codes != [] {
      var before := codes[..|codes| - 1];
      RecentIsBurst(before, now, if n == 0 then 0 else n - 1);
    }
  }

  /** A new request, a cooldown after the last code, is let through and issues the next code of the burst. */
  lemma BurstGoesOn(s: State, n: nat, begun: int, owner: nat, limits: Limits) returns (t: State)
    requires Burst(s, n, begun) && n < limits.maxPerHour && owner !in s.pending
    requires n > 0 ==> s.now + limits.cooldown <= begun + HOUR
    ensures Reaches(s, t, limits) && Burst(t, n + 1, begun) && t.pending == s.pending
    ensures t.now == if n == 0 then s.now else s.now + limits.cooldown
  {
    var at := if n == 0 then s.now else s.now + limits.cooldown;
    RecentIsBurst(s.codes, at, n);
    var admitted := Step(s, Ask(owner, at), limits);
    ReachesSelf(s, limits);
    ReachesNext(s, s, Ask(owner, at), limits);
    t := Step(admitted, Issue(owner, at, "", 0), limits);
    ReachesNext(s, admitted, Issue(owner, at, "", 0), limits);
    assert t.pending == s.pending;
  }

  lemma {:induction false} BurstFills(s: State, n: nat, begun: int, owner: nat, limits: Limits) returns (t: State)
    requires Burst(s, n, begun) && n <= limits.maxPerHour && owner !in s.pending
    requires s.now <= begun + n * limits.cooldown && limits.maxPerHour * limits.cooldown <= HOUR
    ensures Reaches(s, t, limits) && Burst(t, limits.maxPerHour, begun) && t.pending == s.pending
    decreases limits.maxPerHour - n
  {
    if n == limits.maxPerHour {
      t := s;
      ReachesSelf(s, limits);
    } else {
      TimesGrow(n + 1, limits.maxPerHour, limits.cooldown);
      var next := BurstGoesOn(s, n, begun, owner, limits);
      t := BurstFills(next, n + 1, begun, owner, limits);
      ReachesOnwards(s, next, t, limits);
    }
  }

  lemma TimesGrow(m: nat, n: nat, c: nat)
    requires m <= n
    ensures m * c <= n * c && m * c == (m - 1) * c + c
  {}

  /** Whoever waits without the lock issues at once, whatever the limits. */
  lemma {:induction false} StragglersIssue(s: State, n: nat, begun: int, owners: set<nat>, limits: Limits)
    returns (t: State)
    requires Burst(s, n, begun) && owners <= s.pending.Keys
    ensures Reaches(s, t, limits) && Burst(t, n + |owners|, begun) && t.now == s.now
    decreases |owners|
  {
    if owners == {} {
      t := s;
      ReachesSelf(s, limits);
    } else {
      var owner :| owner in owners;
      var issue := Issue(owner, s.now, "", 0);
      var next := Step(s, issue, limits);
      ReachesSelf(s, limits);
      ReachesNext(s, s, issue, limits);
      t := StragglersIssue(next, n + 1, begun, owners - {owner}, limits);
      ReachesOnwards(s, next, t, limits);
    }
  }

  /** Whoever holds the lock gives up; an hour later the slate is clean, but for the stragglers. */
  lemma Quiet(s: State, limits: Limits) returns (t: State)
    requires LimitInv(s, limits)
    ensures Reaches(s, t, limits) && Burst(t, 0, t.now) && t.pending.Keys == Stragglers(s)
  {
    ReachesSelf(s, limits);
    var free := s;
    if s.lock.Some? {
      free := Step(s, MailFails(s.lock.value.owner, s.now), limits);
      ReachesNext(s, s, MailFails(s.lock.value.owner, s.now), limits);
    }
    var later := s.now + 2 * HOUR;
    t := Step(free, PurgeLock(later), limits);
    ReachesNext(s, free, PurgeLock(later), limits);
  }

  /**
   * The bound is reached: wherever some requests wait without the lock, the account can go on to receive `maxPerHour`
   * codes and one for each of them within one hour.
   */
  lemma StragglersExceedTheLimit(s: State, limits: Limits) returns (t: State, from: int)
    requires LimitInv(s, limits) && limits.maxPerHour * limits.cooldown <= HOUR
    ensures Reaches(s, t, limits) && |Window(t.codes, from)| == limits.maxPerHour + |Stragglers(s)|
  {
    var quiet := Quiet(s, limits);
    from := quiet.now;
    var owner := SomebodyNew(quiet.pending.Keys);
    var full := BurstFills(quiet, 0, from, owner, limits);
    ReachesOnwards(s, quiet, full, limits);
    t := StragglersIssue(full, limits.maxPerHour, from, Stragglers(s), limits);
    ReachesOnwards(s, full, t, limits);
    BurstIsWindow(t, limits.maxPerHour + |Stragglers(s)|, from);
  }

  /** And wherever one does, a code can follow an unused one within the cooldown. */
  lemma StragglersBreakTheCooldown(s: State, limits: Limits) returns (t: State)
    requires LimitInv(s, limits) && Stragglers(s) != {} && limits.maxPerHour > 0 && limits.cooldown > 0
    ensures Reaches(s, t, limits) && !Cooled(t.codes, limits)
  {
    var quiet := Quiet(s, limits);
    var owner := SomebodyNew(quiet.pending.Keys);
    var one := BurstGoesOn(quiet, 0, quiet.now, owner, limits);
    ReachesOnwards(s, quiet, one, limits);
    var straggler :| straggler in Stragglers(s);
    var issue := Issue(straggler, one.now, "", 0);
    t := Step(one, issue, limits);
    ReachesNext(s, one, issue, limits);
    var i := |one.codes| - 1;
    assert one.codes[i].consumedAt.None? && one.codes[i].createdAt == one.now;
    assert t.codes[i].consumedAt.None? && t.codes[i].createdAt == one.now;
    assert !CooledAt(t.codes, i, limits);
  }

  /** A request becomes a straggler whenever its mail outlasts its lock. */
  lemma SlowMailMakesStragglers(s: State, limits: Limits)
    requires LimitInv(s, limits) && s.lock.Some?
    ensures var at := if s.now > s.lock.value.expiresAt then s.now else s.lock.value.expiresAt;
            && Enabled(s, PurgeLock(at)) && !MailInTime(s, PurgeLock(at))
            && Stragglers(Step(s, PurgeLock(at), limits)) == Stragglers(s) + {s.lock.value.owner}
  {}

  /** From the start: with one mail slower than the lock both limits can be exceeded. */
  lemma SlowMailBreaksTheCooldown(limits: Limits) returns (t: State, u: State, from: int)
    requires limits.maxPerHour > 0 && limits.cooldown > 0 && limits.maxPerHour * limits.cooldown <= HOUR
    ensures Reaches(NoCodes(0), t, limits) && !Cooled(t.codes, limits)
    ensures Reaches(NoCodes(0), u, limits) && |Window(u.codes, from)| == limits.maxPerHour + 1
  {
    var none := NoCodes(0);
    var asked := Step(none, Ask(0, 0), limits);
    var purged := Step(asked, PurgeLock(LOCK_TTL), limits);
    ReachesSelf(none, limits);
    ReachesNext(none, none, Ask(0, 0), limits);
    ReachesNext(none, asked, PurgeLock(LOCK_TTL), limits);
    NothingIssued(0, limits);
    StepKeepsLimit(none, Ask(0, 0), limits);
    StepKeepsLimit(asked, PurgeLock(LOCK_TTL), limits);
    assert Stragglers(purged) == {0};
    t := StragglersBreakTheCooldown(purged, limits);
    ReachesOnwards(none, purged, t, limits);
    u, from := StragglersExceedTheLimit(purged, limits);
    ReachesOnwards(none, purged, u, limits);
  }

  // ----- what each step does

  /** Code `i` is the newest active one. */
  predicate NewestActive(codes: seq<Code>, i: nat) {
    && i < |codes| && codes[i].consumedAt == None && codes[i].supersededAt == None
    && forall j :: i < j < |codes| ==> codes[j].consumedAt != None || codes[j].supersededAt != None
  }

  ghost predicate OnlyAt(before: seq<Code>, after: seq<Code>, i: nat) {
    i < |before| == |after| && forall j :: 0 <= j < |before| && j != i ==> after[j] == before[j]
  }

  /** Code `i` can still be tried: it is the newest active one, unexpired, with fewer than five wrong guesses. */
  predicate Usable(codes: seq<Code>, now: int, i: nat) {
    NewestActive(codes, i) && codes[i].expiresAt > now && codes[i].attempts < 5
  }

  /**
   * A guess is accepted exactly when it is that of the usable code, which alone changes, by being consumed now; wrong
   * exactly when there is a usable code it is not that of, which alone changes, by one wrong guess more; and otherwise
   * refused for the reason that holds, with nothing changed.
   */
  ghost predicate Verified(codes: seq<Code>, digest: string, now: int, verdict: Verdict, after: seq<Code>) {
    && (verdict == Accepted <==> exists i: nat :: Usable(codes, now, i) && codes[i].digest == digest)
    && (verdict == Wrong <==> exists i: nat :: Usable(codes, now, i) && codes[i].digest != digest)
    && (verdict == NoActiveCode <==> forall i: nat :: !NewestActive(codes, i))
    && (verdict == CodeExpired <==> exists i: nat :: NewestActive(codes, i) && codes[i].expiresAt <= now)
    && (verdict == TooManyAttempts
        <==> exists i: nat :: NewestActive(codes, i) && codes[i].expiresAt > now && codes[i].attempts >= 5)
    && (verdict != Accepted && verdict != Wrong ==> after == codes)
    && (forall i: nat :: verdict == Accepted && Usable(codes, now, i) ==>
          OnlyAt(codes, after, i) && after[i] == codes[i].(consumedAt := Some(now)))
    && (forall i: nat :: verdict == Wrong && Usable(codes, now, i) ==>
          OnlyAt(codes, after, i) && after[i] == codes[i].(attempts := codes[i].attempts + 1))
  }

  lemma {:induction false} ActiveIsNewest(codes: seq<Code>, i: nat)
    ensures ActiveCode(codes) == Some(i) <==> NewestActive(codes, i)
  {
    if codes != [] {
      ActiveIsNewest(codes[..|codes| - 1], i);
    }
  }

  lemma VerifyMeans(codes: seq<Code>, digest: string, now: int)
    ensures Verified(codes, digest, now, Verify(codes, digest, now).0, Verify(codes, digest, now).1)
  {
    forall i: nat ensures ActiveCode(codes) == Some(i) <==> NewestActive(codes, i) { ActiveIsNewest(codes, i); }
    if ActiveCode(codes).Some? {
      assert NewestActive(codes, ActiveCode(codes).value);
    }
  }

  /**
   * The account may be sent a code: fewer than the limit in the last hour, and the newest one is used or old enough.
   */
  ghost predicate HasRoom(codes: seq<Code>, now: int, limits: Limits) {
    && |set i: nat | i < |codes| && codes[i].createdAt >= now - 3600000| < limits.maxPerHour
    && (codes != [] ==> var last := codes[|codes| - 1];
                        last.createdAt < now - 3600000 || last.consumedAt != None
                          || now - last.createdAt >= limits.cooldown)
  }

  lemma MayIssueMeans(codes: seq<Code>, now: int, limits: Limits)
    ensures MayIssue(codes, now, limits) <==> HasRoom(codes, now, limits)
  {
    RecentIsSince(codes, now);
    assert Since(codes, now - HOUR, |codes|) == set i: nat | i < |codes| && codes[i].createdAt >= now - 3600000;
  }

  /** The codes with one more, which alone can be used from now on. */
  ghost predicate Reissued(codes: seq<Code>, at: int, digest: string, ttl: nat, after: seq<Code>) {
    && |after| == |codes| + 1 && after[|codes|] == Code(digest, at, at + ttl, 0, None, None)
    && forall i :: 0 <= i < |codes| ==>
         after[i] == if codes[i].consumedAt == None && codes[i].supersededAt == None
                     then codes[i].(supersededAt := Some(at)) else codes[i]
  }

  lemma SupersedeMeans(codes: seq<Code>, at: int, digest: string, ttl: nat)
    ensures Reissued(codes, at, digest, ttl, Supersede(codes, at) + [Code(digest, at, at + ttl, 0, None, None)])
  {}

  /** A lock goes with the request that took it, and no other. */
  ghost predicate LetGo(before: Option<Lock>, after: Option<Lock>, owner: nat) {
    after == if before.Some? && before.value.owner == owner then None else before
  }

  ghost predicate Asked(s: State, owner: nat, at: int, limits: Limits, t: State) {
    && t.codes == s.codes && t.accepted == s.accepted && t.late == s.late
    && if s.lock == None && HasRoom(s.codes, at, limits)
       then t.lock == Some(Lock(owner, at + 300000)) && t.pending == s.pending[owner := Pending(at, |s.codes|)]
       else t.lock == s.lock && t.pending == s.pending
  }

  ghost predicate Issued(s: State, owner: nat, at: int, digest: string, ttl: nat, t: State) {
    && Reissued(s.codes, at, digest, ttl, t.codes) && LetGo(s.lock, t.lock, owner)
    && t.pending == s.pending - {owner} && t.accepted == s.accepted
    && (t.late == s.late || t.late == s.late + {|s.codes|})
    && (|s.codes| in t.late - s.late ==> s.lock == None || s.lock.value.owner != owner)
    && (s.lock == None || s.lock.value.owner != owner ==> |s.codes| in t.late)
  }

  ghost predicate Tried(s: State, at: int, digest: string, t: State) {
    && t.lock == s.lock && t.pending == s.pending && t.late == s.late
    && exists verdict ::
         && Verified(s.codes, digest, at, verdict, t.codes)
         && (verdict != Accepted ==> t.accepted == s.accepted)
         && (verdict == Accepted ==> exists i: nat :: Usable(s.codes, at, i) && t.accepted == s.accepted + [i])
  }

  lemma TryMeans(s: State, at: int, digest: string, limits: Limits)
    ensures Tried(s, at, digest, Step(s, Try(at, digest), limits))
  {
    VerifyMeans(s.codes, digest, at);
    if ActiveCode(s.codes).Some? {
      ActiveIsNewest(s.codes, ActiveCode(s.codes).value);
    }
  }

  lemma StepMeans(s: State, op: Op, limits: Limits)
    requires Enabled(s, op)
    ensures var t := Step(s, op, limits);
            && t.now == op.at
            && match op
               case Ask(owner, at) => Asked(s, owner, at, limits, t)
               case Issue(owner, at, digest, ttl) => Issued(s, owner, at, digest, ttl, t)
               case MailFails(owner, at) =>
                 t == s.(lock := t.lock, pending := s.pending - {owner}, now := at) && LetGo(s.lock, t.lock, owner)
               case PurgeLock(at) =>
                 t == s.(now := at, lock := if s.lock.Some? && s.lock.value.expiresAt <= at then None else s.lock)
               case Try(at, digest) => Tried(s, at, digest, t)
  {
    match op
    case Ask(_, at) => MayIssueMeans(s.codes, at, limits);
    case Issue(_, at, digest, ttl) => SupersedeMeans(s.codes, at, digest, ttl);
    case Try(at, digest) => TryMeans(s, at, digest, limits);
    case _ =>
  }

  lemma StepKeepsDigests(s: State, op: Op, limits: Limits)
    requires Enabled(s, op)
    ensures var t := Step(s, op, limits); |s.codes| <= |t.codes| && forall i :: 0 <= i < |s.codes| ==>
              t.codes[i].digest == s.codes[i].digest
  {}

  lemma {:induction false} RunsKeepDigests(s: State, ops: seq<Op>, limits: Limits)
    requires Possible(s, ops, limits)
    ensures var t := Run(s, ops, limits); |s.codes| <= |t.codes| && forall i :: 0 <= i < |s.codes| ==>
              t.codes[i].digest == s.codes[i].digest
    decreases |ops|
  {
    if ops != [] {
      StepKeepsDigests(s, ops[0], limits);
      RunsKeepDigests(Step(s, ops[0], limits), ops[1..], limits);
    }
  }

  /** A guess among these operations gave the digest. */
  ghost predicate Guessed(ops: seq<Op>, digest: string) {
    exists n :: 0 <= n < |ops| && ops[n].Try? && ops[n].digest == digest
  }

  /** In every run, whichever code lets somebody in, somebody gave the digest of that very code. */
  lemma {:induction false} AcceptedByOwnDigest(s: State, ops: seq<Op>, limits: Limits, i: nat)
    requires Possible(s, ops, limits) && CodesOk(s.codes) && AcceptedOk(s)
    requires i in Run(s, ops, limits).accepted && i !in s.accepted
    ensures i < |Run(s, ops, limits).codes| && Guessed(ops, Run(s, ops, limits).codes[i].digest)
    decreases |ops|
  {
    var t, rest := Step(s, ops[0], limits), ops[1..];
    StepKeepsCodes(s, ops[0], limits);
    RunsKeepCodes(t, rest, limits);
    if i in t.accepted {
      TryMeans(s, ops[0].at, ops[0].digest, limits);
      StepKeepsDigests(s, ops[0], limits);
      RunsKeepDigests(t, rest, limits);
    } else {
      AcceptedByOwnDigest(t, rest, limits, i);
      var n :| 0 <= n < |rest| && rest[n].Try? && rest[n].digest == Run(s, ops, limits).codes[i].digest;
      assert ops[n + 1] == rest[n];
    }
  }

  // ----- the stored codes as the service changes them

  class CodeStore {
    var codes: seq<Code>
    var lock: Option<Lock>

    constructor ()
      ensures codes == [] && lock == None
    {
      codes, lock := [], None;
    }

    /** The first half of a request: take the lock, then check the cooldown and the hourly limit. */
    method Begin(owner: nat, now: int, limits: Limits) returns (admitted: bool)
      modifies this
      ensures codes == old(codes)
      ensures admitted <==> old(lock).None? && MayIssue(codes, now, limits)
      ensures MayIssue(codes, now, limits) <==> HasRoom(codes, now, limits)
      ensures lock == if admitted then Some(Lock(owner, now + LOCK_TTL)) else old(lock)
    {
      MayIssueMeans(codes, now, limits);
      if lock.Some? { return false; }
      lock := Some(Lock(owner, now + LOCK_TTL));
      var recent := 0;
      for i := 0 to |codes|
        invariant codes == old(codes) && lock == Some(Lock(owner, now + LOCK_TTL)) && recent == Recent(codes[..i], now)
      {
        assert codes[..i + 1][..i] == codes[..i];
        if codes[i].createdAt >= now - HOUR { recent := recent + 1; }
      }
      assert codes[..|codes|] == codes;
      if CoolingDown(codes, now, limits) || recent >= limits.maxPerHour {
        lock := None;
        return false;
      }
      admitted := true;
    }

    /** The second half, once the mail is out: supersede what is active, store the new code, release the lock. */
    method IssueCode(owner: nat, at: int, digest: string, ttl: nat)
      modifies this
      ensures codes == Supersede(old(codes), at) + [Code(digest, at, at + ttl, 0, None, None)]
      ensures Reissued(old(codes), at, digest, ttl, codes)
      ensures lock == Released(old(lock), owner)
    {
      var before := codes;
      for i := 0 to |before|
        invariant |codes| == |before| && lock == old(lock)
        invariant codes[..i] == Supersede(before, at)[..i] && codes[i..] == before[i..]
      {
        if IsActive(codes[i]) {
          codes := codes[i := codes[i].(supersededAt := Some(at))];
        }
      }
      codes := codes + [Code(digest, at, at + ttl, 0, None, None)];
      if lock.Some? && lock.value.owner == owner { lock := None; }
    }

    method VerifyCode(digest: string, now: int) returns (verdict: Verdict)
      modifies `codes
      ensures (verdict, codes) == Verify(old(codes), digest, now)
      ensures Verified(old(codes), digest, now, verdict, codes)
    {
      VerifyMeans(codes, digest, now);
      var active: Option<nat> := None;
      for i := 0 to |codes|
        invariant active == ActiveCode(codes[..i])
        invariant codes == old(codes)
      {
        assert codes[..i + 1][..i] == codes[..i];
        if IsActive(codes[i]) { active := Some(i); }
      }
      assert codes[..|codes|] == codes;
      if active.None? { return NoActiveCode; }
      var code := codes[active.value];
      if code.expiresAt <= now { return CodeExpired; }
      if code.attempts >= MAX_ATTEMPTS { return TooManyAttempts; }
      if code.digest != digest {
        codes := codes[active.value := code.(attempts := code.attempts + 1)];
        return Wrong;
      }
      codes := codes[active.value := code.(consumedAt := Some(now))];
      return Accepted;
    }
  }
}
