/**
 * The records of the hash-chained audit log (src/modules/audit/service.ts): what is hashed, and what the hashed text
 * determines. SHA-256 is a function `h`; freedom from collisions is asked only of the inputs a theorem is about.
 */
module AuditRecords {
  import opened Prelude
  import opened CanonicalJson
  import opened ObjectIds

  type Hash = string -> string

  datatype Actor = Actor(id: string, role: string)

  datatype Entity = Entity(kind: string, id: string, version: Option<nat>)

  /** What a caller asks to record; the payload is already plain JSON. */
  datatype Input =
    Input(tenant: string, category: string, action: string, actor: Option<Actor>, entity: Entity, payload: Json)

  datatype Entry = Entry(
    tenant: string,
    seqNo: nat,
    category: string,
    action: string,
    actorUserId: Option<string>,
    actorRole: Option<string>,
    entity: Entity,
    payload: Json,
    prevHash: string,
    hash: string)

  const DIGEST_LENGTH := 64

  predicate IsDigest(s: string) {
    |s| == DIGEST_LENGTH && forall i :: 0 <= i < |s| ==> IsHex(s[i])
  }

  ghost predicate Digests(h: Hash) {
    forall x :: IsDigest(h(x))
  }

  function Genesis(h: Hash): string {
    h("risksense-audit-genesis")
  }

  // ----- numbers as text

  function Digit(n: nat): char
    requires n < 10
  {
    "0123456789"[n]
  }

  function Decimal(n: nat): string {
    if n < 10 then [Digit(n)] else Decimal(n / 10) + [Digit(n % 10)]
  }

  lemma DigitsDiffer(a: nat, b: nat)
    requires a < 10 && b < 10
    ensures IsNumberChar(Digit(a)) && (Digit(a) == Digit(b) ==> a == b)
  {}

  lemma {:induction false} DecimalIsNumber(n: nat)
    ensures Decimal(n) != "" && NumberChars(Decimal(n))
  {
    DigitsDiffer(n % 10, 0);
    if n >= 10 {
      DecimalIsNumber(n / 10);
    }
  }

  lemma {:induction false} DecimalIsInjective(a: nat, b: nat)
    requires Decimal(a) == Decimal(b)
    ensures a == b
  {
    var x, y := Decimal(a), Decimal(b);
    assert x[|x| - 1] == Digit(a % 10) && y[|y| - 1] == Digit(b % 10);
    DigitsDiffer(a % 10, b % 10);
    DecimalIsNumber(a / 10);
    DecimalIsNumber(b / 10);
    if a >= 10 && b >= 10 {
      assert x[..|x| - 1] == Decimal(a / 10) && y[..|y| - 1] == Decimal(b / 10);
      DecimalIsInjective(a / 10, b / 10);
    }
  }

  // ----- what is hashed

  function OptionalText(text: Option<string>): Json {
    if text.Some? then JText(text.value) else JNull
  }

  /** An empty identifier counts as none. */
  function Truthy(id: Option<string>): Option<string> {
    if id == Some("") then None else id
  }

  function EntityMembers(e: Entity): seq<Member> {
    [Member("type", JText(e.kind)),
     Member("id", JText(e.id)),
     Member("version", if e.version.Some? then JNumber(Decimal(e.version.value)) else JUndefined)]
  }

  /** The hashed object; `prevHash` is blanked because it is hashed in front. */
  function Fields(e: Entry, actorUserId: Option<string>): seq<Member> {
    [Member("tenantId", JText(e.tenant)),
     Member("seq", JNumber(Decimal(e.seqNo))),
     Member("category", JText(e.category)),
     Member("action", JText(e.action)),
     Member("actorUserId", OptionalText(actorUserId)),
     Member("actorRole", OptionalText(e.actorRole)),
     Member("entity", JObject(EntityMembers(e.entity))),
     Member("payload", e.payload),
     Member("prevHash", JUndefined)]
  }

  function HashText(e: Entry, actorUserId: Option<string>): string {
    e.prevHash + CanonicalText(JObject(Fields(e, actorUserId)))
  }

  /** What a stored record hashes to when it is read back. */
  function Recompute(h: Hash, e: Entry): string {
    h(HashText(e, Truthy(e.actorUserId)))
  }

  /** Everything a stored record says, the order of the payload's keys aside. */
  datatype Reading = Reading(
    tenant: string,
    seqNo: nat,
    category: string,
    action: string,
    actorUserId: Option<string>,
    actorRole: Option<string>,
    entity: Entity,
    payload: Meaning)

  function ReadAs(e: Entry, actorUserId: Option<string>): Reading {
    Reading(e.tenant, e.seqNo, e.category, e.action, actorUserId, e.actorRole, e.entity, MeaningOf(e.payload))
  }

  function ReadEntry(e: Entry): Reading {
    ReadAs(e, Truthy(e.actorUserId))
  }

  ghost predicate PlainPayload(payload: Json) {
    WellFormed(payload) && payload.JObject?
  }

  lemma EntityIsWellFormed(e: Entity)
    ensures KeysOnce(EntityMembers(e)) && WellFormed(JObject(EntityMembers(e)))
  {
    if e.version.Some? {
      DecimalIsNumber(e.version.value);
    }
    var m := EntityMembers(e);
    assert m[0].key[0] == 't' && m[1].key[0] == 'i' && m[2].key[0] == 'v';
  }

  function FieldNames(): seq<string> {
    ["tenantId", "seq", "category", "action", "actorUserId", "actorRole", "entity", "payload", "prevHash"]
  }

  lemma FieldNamesDiffer()
    ensures Distinct(FieldNames())
  {}

  ghost predicate KeyedBy(f: seq<Member>, names: seq<string>) {
    |f| == |names| && forall i :: 0 <= i < |f| ==> f[i].key == names[i]
  }

  lemma FieldsKeysOnce(e: Entry, actorUserId: Option<string>)
    ensures KeyedBy(Fields(e, actorUserId), FieldNames()) && KeysOnce(Fields(e, actorUserId))
  {
    FieldNamesDiffer();
  }

  /** The values of the hashed object, member by member. */
  ghost predicate Values(f: seq<Member>, e: Entry, actorUserId: Option<string>) {
    && |f| == 9
    && f[0].value == JText(e.tenant)
    && f[1].value == JNumber(Decimal(e.seqNo))
    && f[2].value == JText(e.category)
    && f[3].value == JText(e.action)
    && f[4].value == OptionalText(actorUserId)
    && f[5].value == OptionalText(e.actorRole)
    && f[6].value == JObject(EntityMembers(e.entity))
    && f[7].value == e.payload
    && f[8].value == JUndefined
  }

  ghost predicate AllButLastDefined(f: seq<Member>) {
    |f| == 9 && !Defined(f[8]) && forall i :: 0 <= i < 8 ==> Defined(f[i])
  }

  lemma FieldsHaveValues(e: Entry, actorUserId: Option<string>)
    ensures Values(Fields(e, actorUserId), e, actorUserId)
  {}

  lemma ValuesDefined(f: seq<Member>, e: Entry, actorUserId: Option<string>)
    requires Values(f, e, actorUserId) && e.payload.JObject?
    ensures AllButLastDefined(f)
  {}

  lemma ValuesAreWellFormed(f: seq<Member>, e: Entry, actorUserId: Option<string>)
    requires Values(f, e, actorUserId) && WellFormed(e.payload)
    requires WellFormed(JObject(EntityMembers(e.entity))) && WellFormed(JNumber(Decimal(e.seqNo)))
    ensures forall m :: m in f ==> WellFormed(m.value)
  {}

  lemma FieldsAreWellFormed(e: Entry, actorUserId: Option<string>)
    requires PlainPayload(e.payload)
    ensures WellFormed(JObject(Fields(e, actorUserId)))
  {
    FieldsKeysOnce(e, actorUserId);
    FieldsHaveValues(e, actorUserId);
    EntityIsWellFormed(e.entity);
    DecimalIsNumber(e.seqNo);
    ValuesAreWellFormed(Fields(e, actorUserId), e, actorUserId);
  }

  lemma TextMeaning(x: string, y: string)
    ensures MeaningOf(JText(x)) == MeaningOf(JText(y)) <==> x == y
  {}

  lemma NumberMeaning(m: nat, n: nat)
    ensures MeaningOf(JNumber(Decimal(m))) == MeaningOf(JNumber(Decimal(n))) <==> m == n
  {
    if Decimal(m) == Decimal(n) {
      DecimalIsInjective(m, n);
    }
  }

  lemma OptionalTextMeaning(x: Option<string>, y: Option<string>)
    ensures MeaningOf(OptionalText(x)) == MeaningOf(OptionalText(y)) <==> x == y
  {}

  lemma EntityMeaning(a: Entity, b: Entity)
    ensures MeaningOf(JObject(EntityMembers(a))) == MeaningOf(JObject(EntityMembers(b))) <==> a == b
  {
    var f, g := EntityMembers(a), EntityMembers(b);
    EntityIsWellFormed(a);
    EntityIsWellFormed(b);
    AlignedMeaning(f, g);
    EntityValues(f, g, a, b);
  }

  lemma EntityValues(f: seq<Member>, g: seq<Member>, a: Entity, b: Entity)
    requires f == EntityMembers(a) && g == EntityMembers(b)
    ensures (forall i :: 0 <= i < 3 ==> SameAt(f, g, i)) <==> a == b
  {
    TextMeaning(a.kind, b.kind);
    TextMeaning(a.id, b.id);
    assert SameAt(f, g, 0) <==> a.kind == b.kind;
    assert SameAt(f, g, 1) <==> a.id == b.id;
    if a.version.Some? && b.version.Some? {
      NumberMeaning(a.version.value, b.version.value);
    }
    assert SameAt(f, g, 2) <==> a.version == b.version;
  }

  /** The defined values of the two hashed objects mean the same. */
  ghost predicate ValuesMatch(f: seq<Member>, g: seq<Member>)
    requires |f| == |g| == 9
  {
    && MeaningOf(f[0].value) == MeaningOf(g[0].value)
    && MeaningOf(f[1].value) == MeaningOf(g[1].value)
    && MeaningOf(f[2].value) == MeaningOf(g[2].value)
    && MeaningOf(f[3].value) == MeaningOf(g[3].value)
    && MeaningOf(f[4].value) == MeaningOf(g[4].value)
    && MeaningOf(f[5].value) == MeaningOf(g[5].value)
    && MeaningOf(f[6].value) == MeaningOf(g[6].value)
    && MeaningOf(f[7].value) == MeaningOf(g[7].value)
  }

  lemma ValuesMatchSame(f: seq<Member>, g: seq<Member>)
    requires AllButLastDefined(f) && AllButLastDefined(g)
    ensures (forall i :: 0 <= i < |f| ==> SameAt(f, g, i)) <==> ValuesMatch(f, g)
  {
    if forall i :: 0 <= i < |f| ==> SameAt(f, g, i) {
      assert SameAt(f, g, 0) && SameAt(f, g, 1) && SameAt(f, g, 2) && SameAt(f, g, 3);
      assert SameAt(f, g, 4) && SameAt(f, g, 5) && SameAt(f, g, 6) && SameAt(f, g, 7);
    }
  }

  lemma ValuesMatchExact(f: seq<Member>, g: seq<Member>, a: Entry, b: Entry, x: Option<string>, y: Option<string>)
    requires Values(f, a, x) && Values(g, b, y)
    ensures ValuesMatch(f, g) <==> ReadAs(a, x) == ReadAs(b, y)
  {
    TextMeaning(a.tenant, b.tenant);
    NumberMeaning(a.seqNo, b.seqNo);
    TextMeaning(a.category, b.category);
    TextMeaning(a.action, b.action);
    OptionalTextMeaning(x, y);
    OptionalTextMeaning(a.actorRole, b.actorRole);
    EntityMeaning(a.entity, b.entity);
  }

  lemma KeyedMeaning(f: seq<Member>, g: seq<Member>, a: Entry, b: Entry, x: Option<string>, y: Option<string>)
    requires Values(f, a, x) && Values(g, b, y) && a.payload.JObject? && b.payload.JObject?
    requires KeysOnce(f) && KeysOnce(g) && Aligned(f, g)
    ensures MeaningOfMembers(f) == MeaningOfMembers(g) <==> ReadAs(a, x) == ReadAs(b, y)
  {
    ValuesDefined(f, a, x);
    ValuesDefined(g, b, y);
    AlignedMeaning(f, g);
    ValuesMatchSame(f, g);
    ValuesMatchExact(f, g, a, b, x, y);
  }

  lemma KeyedAligned(f: seq<Member>, g: seq<Member>, names: seq<string>)
    requires KeyedBy(f, names) && KeyedBy(g, names)
    ensures Aligned(f, g)
  {}

  /** The hashed objects of two records mean the same exactly when the records say the same. */
  lemma FieldsMeaning(a: Entry, b: Entry, x: Option<string>, y: Option<string>)
    requires PlainPayload(a.payload) && PlainPayload(b.payload)
    ensures MeaningOfMembers(Fields(a, x)) == MeaningOfMembers(Fields(b, y)) <==> ReadAs(a, x) == ReadAs(b, y)
  {
    FieldsKeysOnce(a, x);
    FieldsKeysOnce(b, y);
    KeyedAligned(Fields(a, x), Fields(b, y), FieldNames());
    FieldsHaveValues(a, x);
    FieldsHaveValues(b, y);
    KeyedMeaning(Fields(a, x), Fields(b, y), a, b, x, y);
  }

  /** Two records behind the same previous hash hash the same text exactly when they say the same. */
  lemma HashTextExact(a: Entry, b: Entry, x: Option<string>, y: Option<string>)
    requires PlainPayload(a.payload) && PlainPayload(b.payload) && |a.prevHash| == |b.prevHash|
    ensures HashText(a, x) == HashText(b, y) <==> a.prevHash == b.prevHash && ReadAs(a, x) == ReadAs(b, y)
  {
    FieldsAreWellFormed(a, x);
    FieldsAreWellFormed(b, y);
    CanonicalTextExact(JObject(Fields(a, x)), JObject(Fields(b, y)));
    if HashText(a, x) == HashText(b, y) {
      Peel(a.prevHash, b.prevHash, CanonicalText(JObject(Fields(a, x))), CanonicalText(JObject(Fields(b, y))));
    }
    FieldsMeaning(a, b, x, y);
  }
}
