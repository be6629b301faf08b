/**
 * What a record of the audit log says and what text is hashed for it (src/modules/audit/service.ts:24-109,
 * src/lib/hash.ts), field by field.
 */
module AuditLaws {
  import opened Prelude
  import opened Sorting
  import opened CanonicalJson
  import opened ObjectIds
  import opened AuditRecords
  import opened StoredPayload
  import opened AuditChain
  import opened AuditWriters
  import opened JsonLaws

  // ----- numbers

  function ReadNumber(text: string): Option<nat> {
    if text == "" then None
    else
      var last := text[|text| - 1];
      if !('0' <= last <= '9') then None
      else if |text| == 1 then Some(last as int - '0' as int)
      else
        match ReadNumber(text[..|text| - 1])
        case None => None
        case Some(before) => Some(10 * before + (last as int - '0' as int))
  }

  lemma DigitReads(n: nat)
    requires n < 10
    ensures '0' <= Digit(n) <= '9' && Digit(n) as int - '0' as int == n
  {}

  /** A number is written in decimal, without a zero in front. */
  lemma {:induction false} DecimalMeans(n: nat)
    ensures ReadNumber(Decimal(n)) == Some(n) && (n > 0 ==> Decimal(n)[0] != '0')
  {
    DigitReads(n % 10);
    if n >= 10 {
      DecimalMeans(n / 10);
      assert Decimal(n)[..|Decimal(n)| - 1] == Decimal(n / 10);
    }
  }

  // ----- what a record says

  /** The same id with the digits a to f in lower case. */
  ghost predicate InLowerCase(id: string, stored: string) {
    && |stored| == |id|
    && forall i :: 0 <= i < |id| ==>
         stored[i] == if 'A' <= id[i] <= 'F' then "abcdef"[id[i] as int - 'A' as int] else id[i]
  }

  /** A session is named by a reference, not by its id. */
  ghost predicate NamesEntity(h: Hash, given: Entity, stored: Entity) {
    && stored.kind == given.kind && stored.version == given.version
    && (given.kind != "session" || ("session_ref_" <= given.id && IsDigest(given.id[12..])) ==> stored.id == given.id)
    && (given.kind == "session" && !("session_ref_" <= given.id && IsDigest(given.id[12..])) ==>
          stored.id == "session_ref_" + h("audit-session:" + given.id))
  }

  /** The record says what the writer gave, under this number and behind this hash. */
  ghost predicate Says(h: Hash, input: Input, n: nat, prev: string, e: Entry) {
    && InLowerCase(input.tenant, e.tenant) && e.seqNo == n && e.prevHash == prev
    && e.category == input.category && e.action == input.action
    && NamesEntity(h, input.entity, e.entity) && e.payload == Kept(input.payload)
    && (input.actor == None ==> e.actorUserId == None && e.actorRole == None)
    && forall a :: input.actor == Some(a) ==>
         && e.actorRole == Some(a.role)
         && if a.id == "" then e.actorUserId == None
            else e.actorUserId.Some? && InLowerCase(a.id, e.actorUserId.value)
  }

  lemma LowerMeans(id: string)
    ensures InLowerCase(id, StoredId(id))
  {}

  lemma WrittenSays(h: Hash, input: Input, n: nat, prev: string)
    ensures Says(h, input, n, prev, Written(h, input, n, prev))
  {
    LowerMeans(input.tenant);
    if input.actor.Some? {
      LowerMeans(input.actor.value.id);
    }
  }

  /** In every run each acknowledged write is a record of the log that says what was given. */
  lemma AcknowledgedSays(h: Hash, s: System, w: nat)
    requires Inv(AuditFormat(h), s) && w in s.writers && s.writers[w].Done?
    ensures var it := s.writers[w];
            exists slot :: slot in s.store && slot.n == it.n && InLowerCase(it.input.tenant, slot.tenant)
                           && Says(h, it.input, it.n, s.store[slot].prevHash, s.store[slot])
  {
    var it := s.writers[w];
    AcknowledgedOnce(AuditFormat(h), s, w);
    var slot := Slot(StoredId(it.input.tenant), it.n);
    assert slot in s.store;
    LowerMeans(it.input.tenant);
    WrittenSays(h, it.input, it.n, s.store[slot].prevHash);
  }

  predicate HexDigit(c: char) {
    '0' <= c <= '9' || 'a' <= c <= 'f' || 'A' <= c <= 'F'
  }

  predicate IsId(id: string) {
    |id| == 24 && forall i :: 0 <= i < 24 ==> HexDigit(id[i])
  }

  lemma CastableMeans(id: string)
    ensures Castable(id) <==> IsId(id)
  {}

  /** What can be stored: hexadecimal ids of 24 digits, a known category, and an action and an entity with names. */
  lemma StorableMeans(input: Input)
    ensures Storable(input)
            <==> && IsId(input.tenant) && (forall a :: input.actor == Some(a) && a.id != "" ==> IsId(a.id))
                 && input.category in ["auth", "session", "config", "dataset", "assessment", "decision", "retention",
                                       "access"]
                 && input.action != "" && input.entity.kind != "" && input.entity.id != ""
  {
    CastableMeans(input.tenant);
    if input.actor.Some? {
      CastableMeans(input.actor.value.id);
    }
  }

  // ----- what is hashed

  function MaybeText(text: Option<string>): Json {
    match text
    case Some(x) => JText(x)
    case None => JNull
  }

  /** The hashed object: the record's fields in the order of their names. */
  function HashedMembers(e: Entry, actorUserId: Option<string>): seq<Member> {
    [ Member("action", JText(e.action)), Member("actorRole", MaybeText(e.actorRole)),
      Member("actorUserId", MaybeText(actorUserId)), Member("category", JText(e.category)),
      Member("entity", SortKeys(JObject(EntityMembers(e.entity)))), Member("payload", SortKeys(e.payload)),
      Member("seq", JNumber(Decimal(e.seqNo))), Member("tenantId", JText(e.tenant)) ]
  }

  function HashedNames(): (names: seq<string>)
    ensures |names| == 8
  {
    ["action", "actorRole", "actorUserId", "category", "entity", "payload", "seq", "tenantId"]
  }

  lemma FirstNamesAscend()
    ensures TextLess("action", "actorRole") && TextLess("actorRole", "actorUserId")
  {
    Ascends("action", "actorRole", 3);
    Ascends("actorRole", "actorUserId", 5);
  }

  lemma OtherNamesAscend()
    ensures TextLess("actorUserId", "category") && TextLess("category", "entity") && TextLess("entity", "payload")
            && TextLess("payload", "seq") && TextLess("seq", "tenantId")
  {}

  lemma HashedNamesAscend()
    ensures forall i, j :: 0 <= i < j < 8 ==> TextLess(HashedNames()[i], HashedNames()[j])
  {
    FirstNamesAscend();
    OtherNamesAscend();
    AscendAll(HashedNames());
  }

  lemma HashedMembersAscend(e: Entry, x: Option<string>)
    ensures var named := HashedMembers(e, x);
            |named| == 8 && forall i, j :: 0 <= i < j < 8 ==> TextLess(named[i].key, named[j].key)
  {
    HashedNamesAscend();
    assert forall i :: 0 <= i < 8 ==> HashedMembers(e, x)[i].key == HashedNames()[i];
  }

  lemma Ascends(a: string, b: string, n: nat)
    requires n < |a| && n < |b| && a[..n] == b[..n] && a[n] < b[n]
    ensures TextLess(a, b)
  {
    TextLessMeans(a, b);
    assert LessAt(a, b, n);
  }

  lemma {:induction false} AscendAll(names: seq<string>)
    requires forall i :: 0 <= i < |names| - 1 ==> TextLess(names[i], names[i + 1])
    ensures forall i, j :: 0 <= i < j < |names| ==> TextLess(names[i], names[j])
  {
    if |names| > 1 {
      var n := |names| - 1;
      AscendAll(names[..n]);
      forall i | 0 <= i < n ensures TextLess(names[i], names[n]) {
        if i < n - 1 {
          assert TextLess(names[..n][i], names[..n][n - 1]) && TextLess(names[n - 1], names[n]);
          TextLessSplits(names[i], names[n - 1], names[n]);
          if TextLess(names[n], names[n - 1]) {
            TextLessAsymmetric(names[n], names[n - 1]);
          }
        }
      }
    }
  }

  function Sorted1(m: Member): Member {
    Member(m.key, SortKeys(m.value))
  }

  /** The defined members of the hashed object in the order of their names. */
  lemma HashedInOrder(e: Entry, x: Option<string>)
    ensures var f := Fields(e, x);
            && |f| == 9
            && HashedMembers(e, x)
               == [Sorted1(f[3]), Sorted1(f[5]), Sorted1(f[4]), Sorted1(f[2]), Sorted1(f[6]), Sorted1(f[7]),
                 Sorted1(f[1]),
                   Sorted1(f[0])]
  {}

  lemma ListedOnce(f: seq<Member>, m: Member)
    requires AllButLastDefined(f)
    ensures SortedFrom(f, m)
            <==> m in [Sorted1(f[3]), Sorted1(f[5]), Sorted1(f[4]), Sorted1(f[2]), Sorted1(f[6]), Sorted1(f[7]),
                       Sorted1(f[1]), Sorted1(f[0])]
  {
    assert f == [f[0], f[1], f[2], f[3], f[4], f[5], f[6], f[7], f[8]];
  }

  lemma SortedFields(e: Entry, x: Option<string>)
    requires PlainPayload(e.payload)
    ensures SortKeys(JObject(Fields(e, x))) == JObject(HashedMembers(e, x))
  {
    var fields, sorted, named := Fields(e, x), SortKeys(JObject(Fields(e, x))).members, HashedMembers(e, x);
    FieldsKeysOnce(e, x);
    FieldsHaveValues(e, x);
    ValuesDefined(fields, e, x);
    SortMeans(fields);
    HashedMembersAscend(e, x);
    HashedInOrder(e, x);
    forall m ensures m in sorted <==> m in named {
      ListedOnce(fields, m);
    }
    SameWhenAscending(sorted, named);
  }

  /** The text hashed for a record: the previous hash, then the object of the record's fields. */
  lemma HashTextMeans(e: Entry, x: Option<string>)
    requires PlainPayload(e.payload)
    ensures HashText(e, x) == e.prevHash + ("{" + Commas(MemberTexts(HashedMembers(e, x))) + "}")
  {
    SortedFields(e, x);
    ObjectText(HashedMembers(e, x));
  }

  lemma SameWhenAscending(a: seq<Member>, b: seq<Member>)
    requires forall m :: m in a <==> m in b
    requires forall i, j :: 0 <= i < j < |a| ==> TextLess(a[i].key, a[j].key)
    requires forall i, j :: 0 <= i < j < |b| ==> TextLess(b[i].key, b[j].key)
    ensures a == b
  {
    AscendingOnce(a);
    AscendingOnce(b);
    forall m: Member ensures multiset(a)[m] == multiset(b)[m] {
      MemberCount(a, m);
      MemberCount(b, m);
    }
    TextLessOrders();
    assert StrictWeak(MemberLess);
    KeysOnceIsTotal(a);
    AscendingIsSorted(a);
    AscendingIsSorted(b);
    SortedUnique(MemberLess, a, b);
  }

  lemma AscendingOnce(a: seq<Member>)
    requires forall i, j :: 0 <= i < j < |a| ==> TextLess(a[i].key, a[j].key)
    ensures KeysOnce(a)
  {
    forall i, j | 0 <= i < j < |a| ensures a[i].key != a[j].key {
      assert TextLess(a[i].key, a[j].key);
      if a[i].key == a[j].key {
        TextLessAsymmetric(a[i].key, a[j].key);
      }
    }
  }

  lemma AscendingIsSorted(a: seq<Member>)
    requires forall i, j :: 0 <= i < j < |a| ==> TextLess(a[i].key, a[j].key)
    ensures Sorted(MemberLess, a)
  {
    forall i, j | 0 <= i < j < |a| ensures !MemberLess(a[j], a[i]) {
      TextLessAsymmetric(a[i].key, a[j].key);
    }
  }
}
