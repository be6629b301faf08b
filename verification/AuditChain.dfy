/**
 * The audit chain (src/modules/audit/service.ts): how writers append under concurrency, what the walk over a log
 * answers, and what two verified logs that end in the same hash have in common.
 */
module AuditChain {
  import opened Prelude
  import opened CanonicalJson
  import opened ObjectIds
  import opened AuditRecords
  import opened StoredPayload

  // ----- writing one record

  const SESSION_PREFIX := "session_ref_"

  predicate IsReference(id: string) {
    SESSION_PREFIX <= id && IsDigest(id[|SESSION_PREFIX|..])
  }

  function SessionReference(h: Hash, id: string): string {
    if IsReference(id) then id else SESSION_PREFIX + h("audit-session:" + id)
  }

  /** Also what the read-time redaction does to an entry's entity. */
  function Redact(h: Hash, e: Entity): Entity {
    if e.kind == "session" then e.(id := SessionReference(h, e.id)) else e
  }

  function ActorId(input: Input): Option<string> {
    if input.actor.Some? then Some(input.actor.value.id) else None
  }

  function ActorRole(input: Input): Option<string> {
    if input.actor.Some? then Some(input.actor.value.role) else None
  }

  /** What a writer hashes under number `n` behind the hash `prev`: ids and payload as the caller gave them. */
  function AsGiven(h: Hash, input: Input, n: nat, prev: string): Entry {
    Entry(input.tenant, n, input.category, input.action, ActorId(input), ActorRole(input),
          Redact(h, input.entity), input.payload, prev, "")
  }

  function StoredActor(input: Input): Option<string> {
    match Truthy(ActorId(input))
    case Some(id) => Some(StoredId(id))
    case None => None
  }

  /**
   * What is stored of it, as it is read back: object ids in place of the texts, no actor for an empty actor id, and of
   * the payload what the database keeps, where a payload of which nothing is left reads as an empty object.
   */
  function Written(h: Hash, input: Input, n: nat, prev: string): Entry {
    var given := AsGiven(h, input, n, prev);
    given.(tenant := StoredId(input.tenant), actorUserId := StoredActor(input), payload := Kept(input.payload),
           hash := h(HashText(given, ActorId(input))))
  }

  const CATEGORIES := ["auth", "session", "config", "dataset", "assessment", "decision", "retention", "access"]

  /** What can be stored at all; any other write is refused. */
  predicate Storable(input: Input) {
    && Castable(input.tenant)
    && (Truthy(ActorId(input)).Some? ==> Castable(ActorId(input).value))
    && input.category in CATEGORIES && input.action != "" && input.entity.kind != "" && input.entity.id != ""
  }

  /** The ids are spelled as they are read back. */
  predicate Canonical(input: Input) {
    && StoredId(input.tenant) == input.tenant
    && (ActorId(input).Some? ==> ActorId(input).value != "" && StoredId(ActorId(input).value) == ActorId(input).value)
  }

  function Hashed(e: Entry): string {
    HashText(e, Truthy(e.actorUserId))
  }

  ghost predicate Collides(h: Hash, x: string, y: string) {
    x != y && h(x) == h(y)
  }

  /** Everything that is hashed is read back as it was given. */
  predicate ReadsBack(input: Input) {
    Canonical(input) && Survives(input.payload)
  }

  /** The payload is plain JSON, and the hash tells the record as given from the record as stored. */
  ghost predicate TellsApart(h: Hash, input: Input, e: Entry) {
    && PlainPayload(input.payload)
    && !Collides(h, HashText(e.(tenant := input.tenant, payload := input.payload), ActorId(input)), Hashed(e))
  }

  /**
   * A written record verifies when it is read back exactly when its ids were spelled as they are read back and nothing
   * in its payload is an empty object that storing drops.
   */
  lemma WrittenVerifiesIff(h: Hash, input: Input, n: nat, prev: string)
    requires TellsApart(h, input, Written(h, input, n, prev))
    ensures var e := Written(h, input, n, prev);
            e.hash == Recompute(h, e) <==> ReadsBack(input)
  {
    var e := Written(h, input, n, prev);
    var given := AsGiven(h, input, n, prev);
    var same := e.(tenant := input.tenant, payload := input.payload);
    assert HashText(given, ActorId(input)) == HashText(same, ActorId(input)) by {
      assert Fields(given, ActorId(input)) == Fields(same, ActorId(input));
    }
    KeptIsWellFormed(input.payload);
    HashTextExact(given, e, ActorId(input), Truthy(e.actorUserId));
    KeptExact(input.payload);
    assert |input.tenant| == |StoredId(input.tenant)|;
  }

  /**
   * The three ways to fail it by spelling: beside every write that verifies, one in the same log with its tenant or its
   * actor in capitals, or with an empty actor id, is stored just as well and does not.
   */
  lemma SpellingsThatFail(h: Hash, input: Input, n: nat, prev: string)
    requires Storable(input) && Canonical(input) && input.actor.Some?
    ensures var capital := input.(tenant := UpperId(input.tenant));
            Storable(capital) && Written(h, capital, n, prev).tenant == input.tenant
            && (HasLetter(input.tenant) ==> !Canonical(capital))
    ensures var capital := input.(actor := Some(Actor(UpperId(input.actor.value.id), input.actor.value.role)));
            Storable(capital) && Written(h, capital, n, prev).actorUserId == Written(h, input, n, prev).actorUserId
            && (HasLetter(input.actor.value.id) ==> !Canonical(capital))
    ensures var nobody := input.(actor := Some(Actor("", input.actor.value.role)));
            Storable(nobody) && !Canonical(nobody)
  {
    UpperIdIsStoredLower(input.tenant);
    UpperIdIsStoredLower(input.actor.value.id);
  }

  /**
   * The way to fail it by payload that the services do take: an update that gives a field its first value
   * (src/modules/questions/service.ts:50-66) records an empty `before`, whoever makes it and whatever the value.
   */
  lemma FirstValueFails(h: Hash, input: Input, changed: seq<Json>, after: seq<Member>, n: nat, prev: string)
    requires input.payload == UpdatePayload(changed, [], after)
    requires TellsApart(h, input, Written(h, input, n, prev))
    ensures Written(h, input, n, prev).hash != Recompute(h, Written(h, input, n, prev))
  {
    WrittenVerifiesIff(h, input, n, prev);
    UpdateSurvives(changed, [], after);
  }

  lemma ReferencesAreStable(h: Hash, e: Entity)
    requires Digests(h)
    ensures Redact(h, Redact(h, e)) == Redact(h, e)
    ensures Redact(h, e).kind == "session" ==> IsReference(Redact(h, e).id)
  {}

  // ----- the walk over a log

  /** Record `i` carries number i + 1, points at its predecessor, and hashes to what it says. */
  ghost predicate Linked(h: Hash, log: seq<Entry>, i: nat)
    requires i < |log|
  {
    && log[i].seqNo == i + 1
    && log[i].prevHash == (if i == 0 then Genesis(h) else log[i - 1].hash)
    && log[i].hash == Recompute(h, log[i])
  }

  ghost predicate GoodUpTo(h: Hash, log: seq<Entry>, n: nat)
    requires n <= |log|
  {
    forall i :: 0 <= i < n ==> Linked(h, log, i)
  }

  ghost predicate Good(h: Hash, log: seq<Entry>) {
    GoodUpTo(h, log, |log|)
  }

  lemma GoodExtends(h: Hash, log: seq<Entry>, n: nat)
    requires n < |log| && GoodUpTo(h, log, n) && Linked(h, log, n)
    ensures GoodUpTo(h, log, n + 1)
  {}

  /** `log` is what the cursor yields: the tenant's records by ascending number. */
  method Verify(h: Hash, log: seq<Entry>) returns (ok: bool, checked: nat, firstBadSeq: Option<nat>)
    ensures checked <= |log| && GoodUpTo(h, log, checked)
    ensures ok <==> checked == |log|
    ensures !ok ==> !Linked(h, log, checked) && firstBadSeq == Some(log[checked].seqNo)
    ensures ok ==> firstBadSeq == None
  {
    var expectedPrev := Genesis(h);
    var expectedSeq := 1;
    checked := 0;
    for i := 0 to |log|
      invariant checked == i && expectedSeq == i + 1
      invariant expectedPrev == if i == 0 then Genesis(h) else log[i - 1].hash
      invariant GoodUpTo(h, log, i)
    {
      var doc := log[i];
      var recomputed := Recompute(h, doc);
      if doc.seqNo != expectedSeq || doc.prevHash != expectedPrev || doc.hash != recomputed {
        return false, checked, Some(doc.seqNo);
      }
      GoodExtends(h, log, i);
      expectedPrev := doc.hash;
      expectedSeq := expectedSeq + 1;
      checked := checked + 1;
    }
    return true, checked, None;
  }

  predicate Tampered(h: Hash, e: Entry) {
    e.hash != Recompute(h, e)
  }

  function TamperTest(h: Hash): Entry -> bool {
    e => Tampered(h, e)
  }

  function NumbersOf(bad: Entry -> bool, entries: seq<Entry>): seq<nat> {
    if entries == [] then []
    else
      var last := |entries| - 1;
      NumbersOf(bad, entries[..last]) + if bad(entries[last]) then [entries[last].seqNo] else []
  }

  /** Per-record integrity: the numbers of the records that do not hash to what they say, in order. */
  method VerifyEntries(h: Hash, entries: seq<Entry>) returns (ok: bool, checked: nat, badSeqs: seq<nat>)
    ensures badSeqs == NumbersOf(TamperTest(h), entries)
    ensures ok <==> badSeqs == []
    ensures checked == |entries|
  {
    badSeqs := [];
    for i := 0 to |entries|
      invariant badSeqs == NumbersOf(TamperTest(h), entries[..i])
    {
      assert entries[..i + 1][..i] == entries[..i];
      if Tampered(h, entries[i]) {
        badSeqs := badSeqs + [entries[i].seqNo];
      }
    }
    assert entries[..|entries|] == entries;
    ok := badSeqs == [];
    checked := |entries|;
  }

  predicate BadAt(bad: Entry -> bool, entries: seq<Entry>, i: nat, n: nat)
    requires i < |entries|
  {
    entries[i].seqNo == n && bad(entries[i])
  }

  /** A number is reported exactly when some bad record carries it. */
  lemma {:induction false} NumbersOfExact(bad: Entry -> bool, entries: seq<Entry>, n: nat)
    ensures n in NumbersOf(bad, entries) <==> exists i :: 0 <= i < |entries| && BadAt(bad, entries, i, n)
  {
    if entries != [] {
      var last := |entries| - 1;
      var before := entries[..last];
      NumbersOfExact(bad, before, n);
      assert forall i :: 0 <= i < last ==> (BadAt(bad, before, i, n) <==> BadAt(bad, entries, i, n));
      assert BadAt(bad, entries, last, n) <==> n in if bad(entries[last]) then [entries[last].seqNo] else [];
    }
  }

  // ----- two verified logs

  ghost predicate PlainLog(log: seq<Entry>) {
    forall i :: 0 <= i < |log| ==> PlainPayload(log[i].payload)
  }

  ghost predicate CollidesAt(h: Hash, a: seq<Entry>, b: seq<Entry>, i: nat, j: nat)
    requires i < |a| && j < |b|
  {
    Collides(h, Hashed(a[i]), Hashed(b[j]))
  }

  /** No text hashed in one log collides with a text hashed in the other. */
  ghost predicate NoCollision(h: Hash, a: seq<Entry>, b: seq<Entry>) {
    forall i, j :: 0 <= i < |a| && 0 <= j < |b| ==> !CollidesAt(h, a, b, i, j)
  }

  /** Both logs verify, and their hashes can be trusted to tell their records apart. */
  ghost predicate Comparable(h: Hash, a: seq<Entry>, b: seq<Entry>) {
    Digests(h) && Good(h, a) && Good(h, b) && PlainLog(a) && PlainLog(b) && NoCollision(h, a, b)
  }

  /** The same record, the order of the payload's keys aside. */
  ghost predicate SameRecord(a: Entry, b: Entry) {
    ReadEntry(a) == ReadEntry(b) && a.prevHash == b.prevHash && a.hash == b.hash
  }

  ghost predicate SameRecordAt(a: seq<Entry>, b: seq<Entry>, k: nat) {
    k < |a| && k < |b| && SameRecord(a[k], b[k])
  }

  ghost predicate SameRecords(a: seq<Entry>, b: seq<Entry>, n: nat) {
    forall k :: 0 <= k < n ==> SameRecordAt(a, b, k)
  }

  lemma PrevHashLength(h: Hash, log: seq<Entry>, i: nat)
    requires Digests(h) && i < |log| && GoodUpTo(h, log, i + 1)
    ensures |log[i].prevHash| == DIGEST_LENGTH
  {
    assert Linked(h, log, i);
    if i > 0 {
      assert Linked(h, log, i - 1);
      assert IsDigest(h(Hashed(log[i - 1])));
    } else {
      assert IsDigest(h("risksense-audit-genesis"));
    }
  }

  lemma EqualHashesEqualReadings(h: Hash, a: seq<Entry>, b: seq<Entry>, i: nat, j: nat)
    requires Comparable(h, a, b)
    requires i < |a| && j < |b| && a[i].hash == b[j].hash
    ensures a[i].prevHash == b[j].prevHash && ReadEntry(a[i]) == ReadEntry(b[j])
  {
    assert Linked(h, a, i) && Linked(h, b, j);
    PrevHashLength(h, a, i);
    PrevHashLength(h, b, j);
    assert !CollidesAt(h, a, b, i, j);
    assert Hashed(a[i]) == Hashed(b[j]);
    HashTextExact(a[i], b[j], Truthy(a[i].actorUserId), Truthy(b[j].actorUserId));
  }

  lemma EqualHashesEqualRecords(h: Hash, a: seq<Entry>, b: seq<Entry>, i: nat, j: nat)
    requires Comparable(h, a, b)
    requires i < |a| && j < |b| && a[i].hash == b[j].hash
    ensures i == j && SameRecordAt(a, b, i)
    ensures i > 0 ==> a[i - 1].hash == b[i - 1].hash
  {
    assert Linked(h, a, i) && Linked(h, b, j);
    EqualHashesEqualReadings(h, a, b, i, j);
  }

  /** Two logs that both verify and share one hash are the same log up to and including that record. */
  lemma {:induction false} SharedHashSharedPast(h: Hash, a: seq<Entry>, b: seq<Entry>, i: nat, j: nat)
    requires Comparable(h, a, b)
    requires i < |a| && j < |b| && a[i].hash == b[j].hash
    ensures i == j && SameRecords(a, b, i + 1)
    decreases i
  {
    EqualHashesEqualRecords(h, a, b, i, j);
    if i > 0 {
      SharedHashSharedPast(h, a, b, i - 1, i - 1);
    }
  }

  lemma SameLastHash(a: seq<Entry>, b: seq<Entry>, k: nat)
    requires SameRecordAt(a, b, k)
    ensures a[k].hash == b[k].hash
  {}

  /** Two logs that both verify end in the same hash exactly when they are equal record for record. */
  lemma LastHashFixesTheLog(h: Hash, a: seq<Entry>, b: seq<Entry>)
    requires Comparable(h, a, b) && a != [] && b != []
    ensures a[|a| - 1].hash == b[|b| - 1].hash <==> |a| == |b| && SameRecords(a, b, |a|)
  {
    if a[|a| - 1].hash == b[|b| - 1].hash {
      SharedHashSharedPast(h, a, b, |a| - 1, |b| - 1);
    }
    if |a| == |b| && SameRecords(a, b, |a|) {
      SameLastHash(a, b, |a| - 1);
    }
  }
}
