/**
 * What the database keeps of a payload (src/modules/audit/model.ts:24, src/modules/audit/service.ts:67, 132): the field
 * takes any value, and Mongoose leaves out of every object it saves the members that are objects with nothing in them.
 */
module StoredPayload {
  import opened Prelude
  import opened CanonicalJson

  /** Member names that are skipped whenever an object is saved. */
  const RESERVED := ["__proto__", "prototype", "constructor"]

  /** A member is not saved under a reserved name, nor without a value, nor when nothing is left of its value. */
  predicate Dropped(key: string, kept: Json) {
    key in RESERVED || kept.JUndefined? || kept == JObject([])
  }

  /**
   * What is read back of a value; an element of an array is kept even when nothing is left of it, and so is the whole.
   */
  function Kept(j: Json): Json
    decreases j, 1
  {
    match j
    case JArray(items) => JArray(KeptItems(items))
    case JObject(members) => JObject(KeptMembers(members))
    case _ => j
  }

  function KeptItems(items: seq<Json>): (r: seq<Json>)
    ensures |r| == |items|
    decreases items, 0
  {
    if items == [] then [] else [Kept(items[0])] + KeptItems(items[1..])
  }

  function KeptMembers(members: seq<Member>): seq<Member>
    decreases members, 0
  {
    if members == [] then []
    else
      var kept := Member(members[0].key, Kept(members[0].value));
      (if Dropped(kept.key, kept.value) then [] else [kept]) + KeptMembers(members[1..])
  }

  // ----- which values are kept as they are

  /** An object with nothing in it. */
  predicate Bare(j: Json) {
    j.JObject? && forall m :: m in j.members ==> !Defined(m)
  }

  /** At no depth is there a member with a reserved name, or one whose value is an object with nothing in it. */
  predicate Survives(j: Json)
    decreases j
  {
    match j
    case JArray(items) => forall x :: x in items ==> Survives(x)
    case JObject(members) =>
      forall m :: m in members && Defined(m) ==> m.key !in RESERVED && !Bare(m.value) && Survives(m.value)
    case _ => true
  }

  predicate MemberSurvives(m: Member) {
    Defined(m) ==> m.key !in RESERVED && !Bare(m.value) && Survives(m.value)
  }

  lemma {:induction false} KeptItemAt(items: seq<Json>, i: nat)
    requires i < |items|
    ensures KeptItems(items)[i] == Kept(items[i])
  {
    if i > 0 {
      KeptItemAt(items[1..], i - 1);
    }
  }

  lemma {:induction false} KeptMemberIsOld(members: seq<Member>, x: Member)
    requires x in KeptMembers(members)
    ensures exists m :: m in members && x == Member(m.key, Kept(m.value)) && !Dropped(x.key, x.value)
  {
    var kept := Member(members[0].key, Kept(members[0].value));
    if x == kept && !Dropped(x.key, x.value) {
      assert members[0] in members;
    } else {
      KeptMemberIsOld(members[1..], x);
      var m :| m in members[1..] && x == Member(m.key, Kept(m.value));
      assert m in members;
    }
  }

  lemma {:induction false} KeptMembersOnce(members: seq<Member>)
    requires KeysOnce(members)
    ensures KeysOnce(KeptMembers(members))
  {
    if members != [] {
      KeptMembersOnce(members[1..]);
      HeadKeyIsNew(members);
      var rest := KeptMembers(members[1..]);
      forall j | 0 <= j < |rest| ensures rest[j].key != members[0].key {
        KeptMemberIsOld(members[1..], rest[j]);
      }
    }
  }

  lemma {:induction false} KeptIsWellFormed(j: Json)
    requires WellFormed(j)
    ensures WellFormed(Kept(j))
    decreases j
  {
    if j.JArray? {
      forall x | x in KeptItems(j.items) ensures WellFormed(x) {
        var i :| 0 <= i < |j.items| && KeptItems(j.items)[i] == x;
        KeptItemAt(j.items, i);
        assert j.items[i] in j.items;
        KeptIsWellFormed(j.items[i]);
      }
    } else if j.JObject? {
      KeptMembersOnce(j.members);
      forall x | x in KeptMembers(j.members) ensures WellFormed(x.value) {
        KeptMemberIsOld(j.members, x);
        var m :| m in j.members && x == Member(m.key, Kept(m.value));
        KeptIsWellFormed(m.value);
      }
    }
  }

  /** Of an object that survives and has something in it something is left. */
  lemma {:induction false} SomethingIsLeft(members: seq<Member>, m: Member)
    requires m in members && Defined(m) && forall x :: x in members ==> MemberSurvives(x)
    ensures KeptMembers(members) != []
  {
    var first := members[0];
    assert first in members;
    if Defined(first) {
      SurvivorIsKept(first);
    } else {
      SomethingIsLeft(members[1..], m);
    }
  }

  lemma {:induction false} SurvivorIsKept(m: Member)
    requires Defined(m) && MemberSurvives(m)
    ensures !Dropped(m.key, Kept(m.value))
    decreases m, 0
  {
    if m.value.JObject? {
      var x :| x in m.value.members && Defined(x);
      forall y | y in m.value.members ensures MemberSurvives(y) {}
      SomethingIsLeft(m.value.members, x);
    }
  }

  lemma {:induction false} ItemsExact(items: seq<Json>)
    requires forall x :: x in items ==> (MeaningOf(Kept(x)) == MeaningOf(x) <==> Survives(x))
    ensures MeaningOfItems(KeptItems(items)) == MeaningOfItems(items) <==> forall x :: x in items ==> Survives(x)
  {
    forall i | 0 <= i < |items|
      ensures MeaningOfItems(KeptItems(items))[i] == MeaningOfItems(items)[i] <==> Survives(items[i])
    {
      KeptItemAt(items, i);
      ItemsAt(items, i);
      ItemsAt(KeptItems(items), i);
      assert items[i] in items;
    }
    if forall x :: x in items ==> Survives(x) {
      assert forall i :: 0 <= i < |items| ==> MeaningOfItems(KeptItems(items))[i] == MeaningOfItems(items)[i];
    } else {
      var x :| x in items && !Survives(x);
      var i :| 0 <= i < |items| && items[i] == x;
      assert MeaningOfItems(KeptItems(items))[i] != MeaningOfItems(items)[i];
    }
  }

  ghost predicate AllSurvive(members: seq<Member>) {
    forall m :: m in members ==> MemberSurvives(m)
  }

  lemma AllSurviveTail(members: seq<Member>)
    requires members != []
    ensures AllSurvive(members) <==> MemberSurvives(members[0]) && AllSurvive(members[1..])
  {
    assert members == [members[0]] + members[1..];
  }

  lemma {:induction false} KeptHasNoNewKey(members: seq<Member>, key: string)
    requires KeysOnce(members) && forall m :: m in members ==> m.key != key
    ensures key !in MeaningOfMembers(members) && key !in MeaningOfMembers(KeptMembers(members))
  {
    KeptMembersOnce(members);
    FieldsOf(members, key);
    FieldsOf(KeptMembers(members), key);
    if key in MeaningOfMembers(KeptMembers(members)) {
      var x :| x in KeptMembers(members) && x.key == key;
      KeptMemberIsOld(members, x);
    }
  }

  lemma {:induction false} BareIsDropped(members: seq<Member>)
    requires forall m :: m in members ==> !Defined(m)
    ensures KeptMembers(members) == []
  {
    if members != [] {
      assert members[0] in members;
      BareIsDropped(members[1..]);
    }
  }

  /** One member, before members whose keys are other ones. */
  lemma HeadExact(members: seq<Member>)
    requires members != [] && KeysOnce(members)
    requires MeaningOf(Kept(members[0].value)) == MeaningOf(members[0].value) <==> Survives(members[0].value)
    ensures MeaningOfMembers(KeptMembers(members)) == MeaningOfMembers(members)
            <==> MemberSurvives(members[0])
                 && MeaningOfMembers(KeptMembers(members[1..])) == MeaningOfMembers(members[1..])
  {
    var m := members[0];
    var f, g := MeaningOfMembers(KeptMembers(members[1..])), MeaningOfMembers(members[1..]);
    HeadKeyIsNew(members);
    KeptHasNoNewKey(members[1..], m.key);
    var kept := Member(m.key, Kept(m.value));
    if !Defined(m) {
      assert KeptMembers(members) == KeptMembers(members[1..]);
    } else if Dropped(m.key, kept.value) {
      assert KeptMembers(members) == KeptMembers(members[1..]);
      assert m.key !in f && m.key in MeaningOfMembers(members);
      if MemberSurvives(m) { SurvivorIsKept(m); }
    } else {
      KeptHeadMeaning(members);
      HeadField(f, g, m.key, kept, m);
      if Bare(m.value) { BareIsDropped(m.value.members); }
    }
  }

  lemma KeptHeadMeaning(members: seq<Member>)
    requires members != [] && !Dropped(members[0].key, Kept(members[0].value))
    ensures MeaningOfMembers(KeptMembers(members))
            == MeaningOfMembers(KeptMembers(members[1..]))[members[0].key := MeaningOf(Kept(members[0].value))]
  {
    var kept := Member(members[0].key, Kept(members[0].value));
    assert KeptMembers(members) == [kept] + KeptMembers(members[1..]);
    assert KeptMembers(members)[1..] == KeptMembers(members[1..]);
  }

  lemma {:induction false} MembersExact(members: seq<Member>)
    requires KeysOnce(members)
    requires forall m :: m in members ==> (MeaningOf(Kept(m.value)) == MeaningOf(m.value) <==> Survives(m.value))
    ensures MeaningOfMembers(KeptMembers(members)) == MeaningOfMembers(members) <==> AllSurvive(members)
  {
    if members != [] {
      HeadKeyIsNew(members);
      assert members[0] in members;
      MembersExact(members[1..]);
      HeadExact(members);
      AllSurviveTail(members);
    }
  }

  /** What is read back of a value means the same exactly when the value survives. */
  lemma {:induction false} KeptExact(j: Json)
    requires WellFormed(j)
    ensures MeaningOf(Kept(j)) == MeaningOf(j) <==> Survives(j)
    decreases j
  {
    if j.JArray? {
      forall x | x in j.items ensures MeaningOf(Kept(x)) == MeaningOf(x) <==> Survives(x) { KeptExact(x); }
      ItemsExact(j.items);
    } else if j.JObject? {
      forall m | m in j.members ensures MeaningOf(Kept(m.value)) == MeaningOf(m.value) <==> Survives(m.value) {
        KeptExact(m.value);
      }
      MembersExact(j.members);
    }
  }

  /** What was read back once is read back unchanged ever after. */
  lemma {:induction false} KeptSurvives(j: Json)
    ensures Survives(Kept(j))
    decreases j
  {
    if j.JArray? {
      forall x | x in KeptItems(j.items) ensures Survives(x) {
        var i :| 0 <= i < |j.items| && KeptItems(j.items)[i] == x;
        KeptItemAt(j.items, i);
        assert j.items[i] in j.items;
        KeptSurvives(j.items[i]);
      }
    } else if j.JObject? {
      forall x | x in KeptMembers(j.members) ensures MemberSurvives(x) {
        KeptMemberIsOld(j.members, x);
        var m :| m in j.members && x == Member(m.key, Kept(m.value));
        KeptSurvives(m.value);
        KeptIsDefined(m.value);
        assert x.value.JObject? ==> x.value.members[0] in x.value.members && !Bare(x.value);
      }
    }
  }

  /** No object that is read back has a member without a value. */
  lemma KeptIsDefined(j: Json)
    ensures Kept(j).JObject? ==> forall y :: y in Kept(j).members ==> Defined(y)
  {
    if j.JObject? {
      forall y | y in KeptMembers(j.members) ensures Defined(y) { KeptMemberIsOld(j.members, y); }
    }
  }

  // ----- the payload of an update

  /**
   * What an update records (src/modules/questions/service.ts:58-65): the fields patched, as they were and as they are.
   */
  function UpdatePayload(changed: seq<Json>, before: seq<Member>, after: seq<Member>): Json {
    JObject([Member("changed", JArray(changed)), Member("before", JObject(before)), Member("after", JObject(after))])
  }

  /** It survives only if some patched field had a value before, as well as after. */
  lemma UpdateSurvives(changed: seq<Json>, before: seq<Member>, after: seq<Member>)
    ensures Survives(UpdatePayload(changed, before, after))
            <==> && Survives(JArray(changed)) && Survives(JObject(before)) && Survives(JObject(after))
                 && !Bare(JObject(before)) && !Bare(JObject(after))
  {
    var members := UpdatePayload(changed, before, after).members;
    assert members[0] in members && members[1] in members && members[2] in members;
    assert members[0].key[0] == 'c' && members[0].key[1] == 'h' && members[1].key[0] == 'b' && members[2].key[0] == 'a';
  }
}
