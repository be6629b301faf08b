/**
 * Canonical JSON (src/lib/hash.ts): object keys sorted at every level, undefined members dropped, then printed.
 * Two values have the same canonical text exactly when they differ at most in the order of their keys.
 */
module CanonicalJson {
  import opened Prelude
  import opened Sorting

  /** A number is represented by the text JavaScript prints for it. */
  datatype Json =
    | JUndefined
    | JNull
    | JBool(flag: bool)
    | JNumber(digits: string)
    | JText(text: string)
    | JArray(items: seq<Json>)
    | JObject(members: seq<Member>)

  datatype Member = Member(key: string, value: Json)

  predicate MemberLess(a: Member, b: Member) {
    TextLess(a.key, b.key)
  }

  // ----- sorting keys

  function SortKeys(j: Json): Json
    decreases j, 1
  {
    match j
    case JUndefined => JNull
    case JArray(items) => JArray(SortItems(items))
    case JObject(members) => JObject(Sort(MemberLess, SortMembers(members)))
    case _ => j
  }

  function SortItems(items: seq<Json>): (r: seq<Json>)
    ensures |r| == |items|
    decreases items, 0
  {
    if items == [] then [] else [SortKeys(items[0])] + SortItems(items[1..])
  }

  /** The defined members, each with its value sorted; the order is still that of the source. */
  function SortMembers(members: seq<Member>): seq<Member>
    decreases members, 0
  {
    if members == [] then []
    else
      var m := members[0];
      (if m.value.JUndefined? then [] else [Member(m.key, SortKeys(m.value))]) + SortMembers(members[1..])
  }

  /** Every object names each of its keys once, and every number is printed as a number. */
  ghost predicate WellFormed(j: Json)
    decreases j
  {
    match j
    case JNumber(digits) => digits != "" && NumberChars(digits)
    case JArray(items) => forall x :: x in items ==> WellFormed(x)
    case JObject(members) => KeysOnce(members) && forall m :: m in members ==> WellFormed(m.value)
    case _ => true
  }

  predicate IsNumberChar(c: char) {
    '0' <= c <= '9' || c == '-' || c == '+' || c == '.' || c == 'e'
  }

  predicate NumberChars(digits: string) {
    forall i :: 0 <= i < |digits| ==> IsNumberChar(digits[i])
  }

  // ----- what a value means, key order aside

  predicate Defined(m: Member) {
    !m.value.JUndefined?
  }

  /** A JSON value without the order of its keys. */
  datatype Meaning =
    | Nothing
    | Flag(flag: bool)
    | Number(digits: string)
    | Text(text: string)
    | List(items: seq<Meaning>)
    | Record(fields: map<string, Meaning>)

  function MeaningOf(j: Json): Meaning
    decreases j, 1
  {
    match j
    case JUndefined => Nothing
    case JNull => Nothing
    case JBool(flag) => Flag(flag)
    case JNumber(digits) => Number(digits)
    case JText(text) => Text(text)
    case JArray(items) => List(MeaningOfItems(items))
    case JObject(members) => Record(MeaningOfMembers(members))
  }

  function MeaningOfItems(items: seq<Json>): (r: seq<Meaning>)
    ensures |r| == |items|
    decreases items, 0
  {
    if items == [] then [] else [MeaningOf(items[0])] + MeaningOfItems(items[1..])
  }

  function MeaningOfMembers(members: seq<Member>): map<string, Meaning>
    decreases members, 0
  {
    if members == [] then map[]
    else
      var m := members[0];
      var rest := MeaningOfMembers(members[1..]);
      if m.value.JUndefined? then rest else rest[m.key := MeaningOf(m.value)]
  }

  ghost predicate KeysOnce(members: seq<Member>) {
    forall i, j :: 0 <= i < j < |members| ==> members[i].key != members[j].key
  }

  lemma {:induction false} ItemsAt(items: seq<Json>, i: nat)
    requires i < |items|
    ensures SortItems(items)[i] == SortKeys(items[i]) && MeaningOfItems(items)[i] == MeaningOf(items[i])
  {
    if i > 0 {
      ItemsAt(items[1..], i - 1);
    }
  }

  lemma {:induction false} SortMembersHas(members: seq<Member>, x: Member)
    ensures x in SortMembers(members)
            <==> exists m :: m in members && Defined(m) && x == Member(m.key, SortKeys(m.value))
  {
    if members != [] {
      SortMembersHas(members[1..], x);
      assert members == [members[0]] + members[1..];
    }
  }

  lemma {:induction false} SortMembersOnce(members: seq<Member>)
    requires KeysOnce(members)
    ensures KeysOnce(SortMembers(members))
  {
    if members != [] {
      SortMembersOnce(members[1..]);
      var rest := SortMembers(members[1..]);
      forall j | 0 <= j < |rest| ensures rest[j].key != members[0].key {
        SortMembersHas(members[1..], rest[j]);
        var m :| m in members[1..] && m.key == rest[j].key;
        var i :| 0 <= i < |members[1..]| && members[1..][i] == m;
        assert members[0].key != members[i + 1].key;
      }
    }
  }

  lemma KeysOnceIsTotal(members: seq<Member>)
    requires KeysOnce(members)
    ensures TotalOn(MemberLess, members)
  {
    forall x, y | x in members && y in members && x != y ensures MemberLess(x, y) || MemberLess(y, x) {
      var i :| 0 <= i < |members| && members[i] == x;
      var j :| 0 <= j < |members| && members[j] == y;
      assert if i < j then members[i].key != members[j].key else members[j].key != members[i].key;
      TextLessTotal(x.key, y.key);
    }
  }

  lemma {:induction false} MemberCount(members: seq<Member>, x: Member)
    requires KeysOnce(members)
    ensures multiset(members)[x] == if x in members then 1 else 0
  {
    if members != [] {
      MemberCount(members[1..], x);
      assert members == [members[0]] + members[1..];
      forall j | 0 <= j < |members[1..]| ensures members[1..][j] != members[0] {
        assert members[0].key != members[j + 1].key;
      }
    }
  }

  ghost predicate Within(a: seq<Member>, b: seq<Member>) {
    forall x :: x in a ==> x in b
  }

  /** Two lists with the same members, once each, sort to the same list; and only those do. */
  lemma SortedMembersAgree(a: seq<Member>, b: seq<Member>)
    requires KeysOnce(a) && KeysOnce(b)
    ensures Within(a, b) && Within(b, a) <==> Sort(MemberLess, a) == Sort(MemberLess, b)
  {
    SameElements(Sort(MemberLess, a), a);
    SameElements(Sort(MemberLess, b), b);
    if Within(a, b) && Within(b, a) {
      forall x: Member ensures multiset(a)[x] == multiset(b)[x] {
        MemberCount(a, x);
        MemberCount(b, x);
      }
      TextLessOrders();
      assert StrictWeak(MemberLess);
      KeysOnceIsTotal(a);
      SortCanonical(MemberLess, a, b);
    }
  }

  lemma HeadKeyIsNew(members: seq<Member>)
    requires KeysOnce(members) && members != []
    ensures KeysOnce(members[1..]) && forall m :: m in members[1..] ==> m.key != members[0].key
  {}

  lemma {:induction false} FieldsOf(members: seq<Member>, key: string)
    requires KeysOnce(members)
    ensures var fields := MeaningOfMembers(members);
            && (key in fields ==> exists m :: m in members && Defined(m) && m.key == key)
            && forall m :: m in members && Defined(m) && m.key == key
                           ==> key in fields && fields[key] == MeaningOf(m.value)
  {
    if members != [] {
      HeadKeyIsNew(members);
      FieldsOf(members[1..], key);
      assert members == [members[0]] + members[1..];
    }
  }

  /** The values of the two objects sort alike exactly when they mean the same. */
  ghost predicate ValuesDecided(a: seq<Member>, b: seq<Member>) {
    forall m, n :: m in a && n in b
      ==> (MeaningOf(m.value) == MeaningOf(n.value) <==> SortKeys(m.value) == SortKeys(n.value))
  }

  /** Some defined member has this key and this sorted value. */
  ghost predicate HasPartner(m: Member, members: seq<Member>) {
    exists n :: n in members && Defined(n) && n.key == m.key && SortKeys(n.value) == SortKeys(m.value)
  }

  ghost predicate Mirrored(a: seq<Member>, b: seq<Member>) {
    forall m :: m in a && Defined(m) ==> HasPartner(m, b)
  }

  lemma PartnerIsSorted(m: Member, members: seq<Member>)
    ensures HasPartner(m, members) <==> Member(m.key, SortKeys(m.value)) in SortMembers(members)
  {}

  lemma MirroredSorted(a: seq<Member>, b: seq<Member>)
    ensures Mirrored(a, b) <==> Within(SortMembers(a), SortMembers(b))
  {
    if Mirrored(a, b) {
      forall x | x in SortMembers(a) ensures x in SortMembers(b) {
        SortMembersHas(a, x);
        var m :| m in a && Defined(m) && x == Member(m.key, SortKeys(m.value));
        PartnerIsSorted(m, b);
      }
    }
    if Within(SortMembers(a), SortMembers(b)) {
      forall m | m in a && Defined(m) ensures HasPartner(m, b) {
        var x := Member(m.key, SortKeys(m.value));
        SortMembersHas(a, x);
        assert x in SortMembers(a) && x in SortMembers(b);
        PartnerIsSorted(m, b);
      }
    }
  }

  lemma SameFieldsMirror(a: seq<Member>, b: seq<Member>)
    requires KeysOnce(a) && KeysOnce(b) && ValuesDecided(a, b)
    requires MeaningOfMembers(a) == MeaningOfMembers(b)
    ensures Mirrored(a, b)
  {
    forall m | m in a && Defined(m) ensures HasPartner(m, b) {
      FieldsOf(a, m.key);
      FieldsOf(b, m.key);
      var n :| n in b && Defined(n) && n.key == m.key;
      assert MeaningOf(m.value) == MeaningOf(n.value);
    }
  }

  lemma MirrorGivesField(a: seq<Member>, b: seq<Member>, k: string)
    requires KeysOnce(a) && KeysOnce(b) && ValuesDecided(a, b) && Mirrored(a, b)
    requires k in MeaningOfMembers(a)
    ensures k in MeaningOfMembers(b) && MeaningOfMembers(a)[k] == MeaningOfMembers(b)[k]
  {
    FieldsOf(a, k);
    FieldsOf(b, k);
    var m :| m in a && Defined(m) && m.key == k;
    assert HasPartner(m, b);
    var n :| n in b && Defined(n) && n.key == m.key && SortKeys(n.value) == SortKeys(m.value);
    assert MeaningOf(m.value) == MeaningOf(n.value);
  }

  lemma MirrorsGiveSameFields(a: seq<Member>, b: seq<Member>)
    requires KeysOnce(a) && KeysOnce(b) && ValuesDecided(a, b) && ValuesDecided(b, a)
    requires Mirrored(a, b) && Mirrored(b, a)
    ensures MeaningOfMembers(a) == MeaningOfMembers(b)
  {
    var f, g := MeaningOfMembers(a), MeaningOfMembers(b);
    forall k | k in f ensures k in g && f[k] == g[k] { MirrorGivesField(a, b, k); }
    forall k | k in g ensures k in f { MirrorGivesField(b, a, k); }
  }

  lemma ObjectsMeanTheSame(a: seq<Member>, b: seq<Member>)
    requires KeysOnce(a) && KeysOnce(b) && ValuesDecided(a, b) && ValuesDecided(b, a)
    ensures MeaningOfMembers(a) == MeaningOfMembers(b) <==> Mirrored(a, b) && Mirrored(b, a)
  {
    if MeaningOfMembers(a) == MeaningOfMembers(b) {
      SameFieldsMirror(a, b);
      SameFieldsMirror(b, a);
    }
    if Mirrored(a, b) && Mirrored(b, a) {
      MirrorsGiveSameFields(a, b);
    }
  }

  lemma ObjectsSortTheSame(a: seq<Member>, b: seq<Member>)
    requires KeysOnce(a) && KeysOnce(b)
    ensures Sort(MemberLess, SortMembers(a)) == Sort(MemberLess, SortMembers(b)) <==> Mirrored(a, b) && Mirrored(b, a)
  {
    SortMembersOnce(a);
    SortMembersOnce(b);
    SortedMembersAgree(SortMembers(a), SortMembers(b));
    MirroredSorted(a, b);
    MirroredSorted(b, a);
  }

  lemma ListsDecided(a: seq<Json>, b: seq<Json>)
    requires forall x, y :: x in a && y in b ==> (MeaningOf(x) == MeaningOf(y) <==> SortKeys(x) == SortKeys(y))
    ensures MeaningOfItems(a) == MeaningOfItems(b) <==> SortItems(a) == SortItems(b)
  {
    if |a| == |b| {
      forall i | 0 <= i < |a|
        ensures SortItems(a)[i] == SortItems(b)[i] <==> MeaningOfItems(a)[i] == MeaningOfItems(b)[i]
      {
        ItemsAt(a, i);
        ItemsAt(b, i);
        assert a[i] in a && b[i] in b;
      }
    } else {
      assert |SortItems(a)| != |SortItems(b)| && |MeaningOfItems(a)| != |MeaningOfItems(b)|;
    }
  }

  /** Sorting keys forgets the order of keys, and nothing else. */
  lemma {:induction false} SortKeysExact(a: Json, b: Json)
    requires WellFormed(a) && WellFormed(b)
    ensures MeaningOf(a) == MeaningOf(b) <==> SortKeys(a) == SortKeys(b)
    decreases a
  {
    if a.JArray? && b.JArray? {
      forall x, y | x in a.items && y in b.items
        ensures MeaningOf(x) == MeaningOf(y) <==> SortKeys(x) == SortKeys(y)
      {
        SortKeysExact(x, y);
      }
      ListsDecided(a.items, b.items);
    } else if a.JObject? && b.JObject? {
      forall m, n | m in a.members && n in b.members
        ensures MeaningOf(m.value) == MeaningOf(n.value) <==> SortKeys(m.value) == SortKeys(n.value)
      {
        SortKeysExact(m.value, n.value);
      }
      ObjectsMeanTheSame(a.members, b.members);
      ObjectsSortTheSame(a.members, b.members);
    }
  }

  // ----- objects with the same keys in the same places

  ghost predicate SameAt(a: seq<Member>, b: seq<Member>, i: nat)
    requires i < |a| && i < |b|
  {
    && (Defined(a[i]) <==> Defined(b[i]))
    && (Defined(a[i]) ==> MeaningOf(a[i].value) == MeaningOf(b[i].value))
  }

  ghost predicate Aligned(a: seq<Member>, b: seq<Member>) {
    |a| == |b| && forall i :: 0 <= i < |a| ==> a[i].key == b[i].key
  }

  /** Such objects mean the same exactly when they agree member by member. */
  lemma {:induction false} AlignedMeaning(a: seq<Member>, b: seq<Member>)
    requires KeysOnce(a) && KeysOnce(b) && Aligned(a, b)
    ensures MeaningOfMembers(a) == MeaningOfMembers(b) <==> forall i :: 0 <= i < |a| ==> SameAt(a, b, i)
  {
    if a != [] {
      var f, g := MeaningOfMembers(a[1..]), MeaningOfMembers(b[1..]);
      var k := a[0].key;
      HeadKeyIsNew(a);
      HeadKeyIsNew(b);
      FieldsOf(a[1..], k);
      FieldsOf(b[1..], k);
      AlignedMeaning(a[1..], b[1..]);
      assert k !in f && k !in g;
      assert forall i :: 0 <= i < |a| - 1 ==> (SameAt(a, b, i + 1) <==> SameAt(a[1..], b[1..], i));
      assert (forall i :: 0 <= i < |a| ==> SameAt(a, b, i)) <==> SameAt(a, b, 0) && f == g by {
        TailsAgree(a, b);
      }
      HeadField(f, g, k, a[0], b[0]);
    }
  }

  lemma TailsAgree(a: seq<Member>, b: seq<Member>)
    requires |a| == |b| > 0
    ensures (forall i :: 0 <= i < |a| ==> SameAt(a, b, i))
            <==> SameAt(a, b, 0) && forall i :: 0 <= i < |a[1..]| ==> SameAt(a[1..], b[1..], i)
  {
    if SameAt(a, b, 0) && forall i :: 0 <= i < |a[1..]| ==> SameAt(a[1..], b[1..], i) {
      forall i | 0 <= i < |a| ensures SameAt(a, b, i) {
        assert i > 0 ==> SameAt(a[1..], b[1..], i - 1);
      }
    }
    if forall i :: 0 <= i < |a| ==> SameAt(a, b, i) {
      forall i | 0 <= i < |a[1..]| ensures SameAt(a[1..], b[1..], i) {
        assert SameAt(a, b, i + 1);
      }
    }
  }

  lemma HeadField(f: map<string, Meaning>, g: map<string, Meaning>, k: string, m: Member, n: Member)
    requires k !in f && k !in g
    ensures (if Defined(m) then f[k := MeaningOf(m.value)] else f)
            == (if Defined(n) then g[k := MeaningOf(n.value)] else g)
            <==> f == g && (Defined(m) <==> Defined(n)) && (Defined(m) ==> MeaningOf(m.value) == MeaningOf(n.value))
  {
    var x := if Defined(m) then f[k := MeaningOf(m.value)] else f;
    var y := if Defined(n) then g[k := MeaningOf(n.value)] else g;
    assert x - {k} == f && y - {k} == g;
    assert (k in x <==> Defined(m)) && (k in y <==> Defined(n));
  }

  // ----- sorting is idempotent and keeps the meaning

  /** No undefined member or element is left. */
  ghost predicate Solid(j: Json)
    decreases j
  {
    match j
    case JUndefined => false
    case JArray(items) => forall x :: x in items ==> Solid(x)
    case JObject(members) => forall m :: m in members ==> Solid(m.value)
    case _ => true
  }

  lemma SortedOnce(members: seq<Member>)
    requires KeysOnce(members)
    ensures KeysOnce(Sort(MemberLess, members))
  {
    var s := Sort(MemberLess, members);
    TextLessOrders();
    SortSorts(MemberLess, members);
    SameElements(s, members);
    forall i, j | 0 <= i < j < |s| ensures s[i].key != s[j].key {
      if s[i].key == s[j].key {
        assert s[i] in s && s[j] in s;
        OneMemberPerKey(members, s[i], s[j]);
        TwiceCounted(s, i, j);
        MemberCount(members, s[i]);
      }
    }
  }

  lemma OneMemberPerKey(members: seq<Member>, m: Member, n: Member)
    requires KeysOnce(members) && m in members && n in members && m.key == n.key
    ensures m == n
  {}

  lemma {:induction false} SortedIsWellFormed(j: Json)
    requires WellFormed(j)
    ensures WellFormed(SortKeys(j)) && Solid(SortKeys(j))
    decreases j
  {
    match j
    case JArray(items) =>
      forall x | x in SortItems(items) ensures WellFormed(x) && Solid(x) {
        var i :| 0 <= i < |items| && SortItems(items)[i] == x;
        ItemsAt(items, i);
        SortedIsWellFormed(items[i]);
      }
    case JObject(members) =>
      var kept := SortMembers(members);
      SortMembersOnce(members);
      SortedOnce(kept);
      SameElements(Sort(MemberLess, kept), kept);
      forall x | x in kept ensures WellFormed(x.value) && Solid(x.value) {
        SortMembersHas(members, x);
        var m :| m in members && Defined(m) && x == Member(m.key, SortKeys(m.value));
        SortedIsWellFormed(m.value);
      }
    case _ =>
  }

  lemma SortedFields(members: seq<Member>, key: string)
    requires KeysOnce(members)
    requires forall m :: m in members
                         ==> MeaningOf(SortKeys(m.value)) == MeaningOf(m.value) && !SortKeys(m.value).JUndefined?
    ensures var f, g := MeaningOfMembers(members), MeaningOfMembers(Sort(MemberLess, SortMembers(members)));
            (key in f <==> key in g) && (key in f ==> f[key] == g[key])
  {
    var kept := SortMembers(members);
    var sorted := Sort(MemberLess, kept);
    SortMembersOnce(members);
    SortedOnce(kept);
    SameElements(sorted, kept);
    FieldsOf(members, key);
    FieldsOf(sorted, key);
    if key in MeaningOfMembers(members) {
      var m :| m in members && Defined(m) && m.key == key;
      var x := Member(m.key, SortKeys(m.value));
      SortMembersHas(members, x);
      assert x in sorted && Defined(x);
    }
    if key in MeaningOfMembers(sorted) {
      var x :| x in sorted && Defined(x) && x.key == key;
      SortMembersHas(members, x);
      var m :| m in members && Defined(m) && x == Member(m.key, SortKeys(m.value));
    }
  }

  /** Sorting the keys changes nothing but their order. */
  lemma {:induction false} SortKeysKeepsMeaning(j: Json)
    requires WellFormed(j)
    ensures MeaningOf(SortKeys(j)) == MeaningOf(j)
    decreases j
  {
    match j
    case JArray(items) =>
      forall i | 0 <= i < |items| ensures MeaningOfItems(SortItems(items))[i] == MeaningOfItems(items)[i] {
        ItemsAt(items, i);
        ItemsAt(SortItems(items), i);
        SortKeysKeepsMeaning(items[i]);
      }
    case JObject(members) =>
      forall m | m in members
        ensures MeaningOf(SortKeys(m.value)) == MeaningOf(m.value) && !SortKeys(m.value).JUndefined?
      {
        SortKeysKeepsMeaning(m.value);
      }
      var sorted := Sort(MemberLess, SortMembers(members));
      forall key
        ensures key in MeaningOfMembers(members) <==> key in MeaningOfMembers(sorted)
        ensures key in MeaningOfMembers(members) ==> MeaningOfMembers(members)[key] == MeaningOfMembers(sorted)[key]
      {
        SortedFields(members, key);
      }
      assert MeaningOfMembers(sorted) == MeaningOfMembers(members);
    case _ =>
  }

  /** Sorting twice is sorting once. */
  lemma SortKeysIdempotent(j: Json)
    requires WellFormed(j)
    ensures SortKeys(SortKeys(j)) == SortKeys(j)
  {
    SortedIsWellFormed(j);
    SortKeysKeepsMeaning(j);
    SortKeysExact(SortKeys(j), j);
  }

  // ----- printing

  function Hex(n: nat): char
    requires n < 16
  {
    "0123456789abcdef"[n]
  }

  function EscapeChar(c: char): string {
    if c == '\"' then "\\\""
    else if c == '\\' then "\\\\"
    else if c as int == 8 then "\\b"
    else if c as int == 9 then "\\t"
    else if c as int == 10 then "\\n"
    else if c as int == 12 then "\\f"
    else if c as int == 13 then "\\r"
    else if c as int < 32 then "\\u00" + [Hex(c as int / 16), Hex(c as int % 16)]
    else [c]
  }

  function Escape(text: string): string {
    if text == "" then "" else EscapeChar(text[0]) + Escape(text[1..])
  }

  function Quote(text: string): string {
    "\"" + Escape(text) + "\""
  }

  function Print(j: Json): string
    decreases j, 1
  {
    match j
    case JUndefined => "null"
    case JNull => "null"
    case JBool(flag) => if flag then "true" else "false"
    case JNumber(digits) => digits
    case JText(text) => Quote(text)
    case JArray(items) => if items == [] then "[]" else "[" + Print(items[0]) + PrintItems(items[1..])
    case JObject(members) => if members == [] then "{}" else "{" + PrintMember(members[0]) + PrintMembers(members[1..])
  }

  /** The elements after the first, and the closing bracket. */
  function PrintItems(items: seq<Json>): string
    decreases items, 0
  {
    if items == [] then "]" else "," + Print(items[0]) + PrintItems(items[1..])
  }

  function PrintMember(m: Member): string
    decreases m, 0
  {
    Quote(m.key) + ":" + Print(m.value)
  }

  function PrintMembers(members: seq<Member>): string
    decreases members, 0
  {
    if members == [] then "}" else "," + PrintMember(members[0]) + PrintMembers(members[1..])
  }

  function CanonicalText(j: Json): string {
    Print(SortKeys(j))
  }

  // ----- printing is injective

  lemma HexIsInjective(a: nat, b: nat)
    requires a < 16 && b < 16 && Hex(a) == Hex(b)
    ensures a == b
  {}

  /** The sixth character of an escaped control code and the fifth give its number back. */
  lemma ControlCodes(c: char, d: char)
    requires c as int < 32 && d as int < 32
    requires Hex(c as int / 16) == Hex(d as int / 16) && Hex(c as int % 16) == Hex(d as int % 16)
    ensures c == d
  {
    HexIsInjective(c as int / 16, d as int / 16);
    HexIsInjective(c as int % 16, d as int % 16);
  }

  lemma EscapeCharShape(c: char)
    ensures var e := EscapeChar(c);
            && |e| >= 1 && e[0] != '\"'
            && (e[0] == '\\' ==> |e| >= 2)
            && (e[0] != '\\' ==> e == [c])
            && (e[0] == '\\' && e[1] == 'u'
               ==> |e| == 6 && c as int < 32 && e[4] == Hex(c as int / 16) && e[5] == Hex(c as int % 16))
            && (e[0] == '\\' && e[1] != 'u' ==> |e| == 2)
  {}

  /** Two escaped characters that start the same text are the same character. */
  lemma EscapeCharPrefixFree(c: char, d: char, r: string, t: string)
    requires EscapeChar(c) + r == EscapeChar(d) + t
    ensures c == d && r == t
  {
    var x, y := EscapeChar(c), EscapeChar(d);
    EscapeCharShape(c);
    EscapeCharShape(d);
    assert x[0] == (x + r)[0] && y[0] == (y + t)[0];
    if x[0] == '\\' {
      assert x[1] == (x + r)[1] && y[1] == (y + t)[1];
      if x[1] == 'u' {
        assert x[4] == (x + r)[4] && y[4] == (y + t)[4];
        assert x[5] == (x + r)[5] && y[5] == (y + t)[5];
        ControlCodes(c, d);
      }
    }
    assert |x| == |y|;
    assert r == (x + r)[|x|..] && t == (y + t)[|y|..];
  }

  lemma EscapeUnfold(text: string, r: string)
    ensures var x := Escape(text) + "\"" + r;
            && x == (if text == "" then "\"" + r else EscapeChar(text[0]) + (Escape(text[1..]) + "\"" + r))
            && x != "" && (text == "" <==> x[0] == '\"')
  {}

  lemma {:induction false} EscapePrefixFree(s: string, u: string, r: string, t: string)
    requires Escape(s) + "\"" + r == Escape(u) + "\"" + t
    ensures s == u && r == t
  {
    EscapeUnfold(s, r);
    EscapeUnfold(u, t);
    if s == "" {
      Peel("\"", "\"", r, t);
    } else {
      EscapeCharPrefixFree(s[0], u[0], Escape(s[1..]) + "\"" + r, Escape(u[1..]) + "\"" + t);
      EscapePrefixFree(s[1..], u[1..], r, t);
      assert s == [s[0]] + s[1..] && u == [u[0]] + u[1..];
    }
  }

  /** What may follow a printed value: nothing, or a character that no number contains. */
  predicate Stops(r: string) {
    r == "" || !IsNumberChar(r[0])
  }

  /** Equal texts with equally long beginnings have equal beginnings and equal ends. */
  lemma Peel(p: string, q: string, x: string, y: string)
    requires |p| == |q| && p + x == q + y
    ensures p == q && x == y
  {
    assert p == (p + x)[..|p|] && q == (q + y)[..|q|];
    assert x == (p + x)[|p|..] && y == (q + y)[|q|..];
  }

  lemma NumberGoesOn(rest: string, t: string)
    requires NumberChars(rest)
    ensures rest != "" ==> !Stops(rest + t)
  {}

  /** The shorter of two beginnings begins the longer one, whose remainder follows it. */
  lemma BeginningTail(a: string, b: string, r: string, t: string)
    requires |a| <= |b| && a + r == b + t
    ensures r == b[|a|..] + t && a == b[..|a|]
  {
    assert r == (a + r)[|a|..];
    assert b + t == b[..|a|] + (b[|a|..] + t);
    assert a == (a + r)[..|a|];
  }

  lemma NumberPrefixFree(a: string, b: string, r: string, t: string)
    requires NumberChars(a) && NumberChars(b) && Stops(r) && Stops(t) && a + r == b + t
    ensures a == b && r == t
  {
    if |a| <= |b| {
      BeginningTail(a, b, r, t);
      NumberGoesOn(b[|a|..], t);
    } else {
      BeginningTail(b, a, t, r);
      NumberGoesOn(a[|b|..], r);
    }
  }

  // ----- printed values, one piece at a time

  lemma QuoteUnfold(text: string, r: string)
    ensures Quote(text) + r == "\"" + (Escape(text) + "\"" + r)
  {}

  lemma QuotePrefixFree(s: string, u: string, r: string, t: string)
    requires Quote(s) + r == Quote(u) + t
    ensures s == u && r == t
  {
    QuoteUnfold(s, r);
    QuoteUnfold(u, t);
    Peel("\"", "\"", Escape(s) + "\"" + r, Escape(u) + "\"" + t);
    EscapePrefixFree(s, u, r, t);
  }

  lemma ItemsUnfold(items: seq<Json>, r: string)
    ensures PrintItems(items) + r
            == if items == [] then "]" + r else "," + (Print(items[0]) + (PrintItems(items[1..]) + r))
  {}

  lemma ArrayUnfold(items: seq<Json>, r: string)
    ensures Print(JArray(items)) + r
            == "[" + if items == [] then "]" + r else Print(items[0]) + (PrintItems(items[1..]) + r)
  {}

  lemma MemberUnfold(m: Member, r: string)
    ensures PrintMember(m) + r == Quote(m.key) + (":" + (Print(m.value) + r))
  {}

  lemma MembersUnfold(members: seq<Member>, r: string)
    ensures PrintMembers(members) + r
            == if members == [] then "}" + r else "," + (PrintMember(members[0]) + (PrintMembers(members[1..]) + r))
  {}

  lemma ObjectUnfold(members: seq<Member>, r: string)
    ensures Print(JObject(members)) + r
            == "{" + if members == [] then "}" + r else PrintMember(members[0]) + (PrintMembers(members[1..]) + r)
  {}

  /** The character a printed value starts with; a number starts with any of its own. */
  function FirstChar(j: Json): char {
    match j
    case JUndefined => 'n'
    case JNull => 'n'
    case JBool(flag) => if flag then 't' else 'f'
    case JNumber(digits) => if digits == "" then ' ' else digits[0]
    case JText(_) => '\"'
    case JArray(_) => '['
    case JObject(_) => '{'
  }

  lemma PrintStarts(j: Json, r: string)
    requires WellFormed(j)
    ensures Print(j) + r != "" && (Print(j) + r)[0] == FirstChar(j)
  {}

  lemma MemberStarts(m: Member, r: string)
    ensures PrintMember(m) + r != "" && (PrintMember(m) + r)[0] == '\"'
  {}

  lemma {:induction false} PrintPrefixFree(a: Json, b: Json, r: string, t: string)
    requires WellFormed(a) && Solid(a) && WellFormed(b) && Solid(b) && Stops(r) && Stops(t)
    requires Print(a) + r == Print(b) + t
    ensures a == b && r == t
    decreases a, 1
  {
    PrintStarts(a, r);
    PrintStarts(b, t);
    match a
    case JUndefined =>
    case JNull => Peel("null", "null", r, t);
    case JBool(flag) => Peel(Print(a), Print(a), r, t);
    case JNumber(digits) => NumberPrefixFree(digits, b.digits, r, t);
    case JText(text) => QuotePrefixFree(text, b.text, r, t);
    case JArray(items) => ArrayPrefixFree(items, b.items, r, t);
    case JObject(members) => ObjectPrefixFree(members, b.members, r, t);
  }

  ghost predicate Printable(items: seq<Json>) {
    forall x :: x in items ==> WellFormed(x) && Solid(x)
  }

  ghost predicate PrintableMembers(members: seq<Member>) {
    forall m :: m in members ==> WellFormed(m.value) && Solid(m.value)
  }

  lemma ItemsStop(items: seq<Json>, r: string)
    ensures Stops(PrintItems(items) + r)
  {}

  lemma MembersStop(members: seq<Member>, r: string)
    ensures Stops(PrintMembers(members) + r)
  {}

  /** One element and what follows it determine both. */
  lemma {:induction false} ElementPrefixFree(a: seq<Json>, b: seq<Json>, r: string, t: string)
    requires a != [] && b != [] && Printable(a) && Printable(b)
    requires Print(a[0]) + (PrintItems(a[1..]) + r) == Print(b[0]) + (PrintItems(b[1..]) + t)
    ensures a == b && r == t
    decreases a, 0, 0
  {
    ItemsStop(a[1..], r);
    ItemsStop(b[1..], t);
    PrintPrefixFree(a[0], b[0], PrintItems(a[1..]) + r, PrintItems(b[1..]) + t);
    ItemsPrefixFree(a[1..], b[1..], r, t);
    assert a == [a[0]] + a[1..] && b == [b[0]] + b[1..];
  }

  lemma {:induction false} ItemsPrefixFree(a: seq<Json>, b: seq<Json>, r: string, t: string)
    requires Printable(a) && Printable(b)
    requires PrintItems(a) + r == PrintItems(b) + t
    ensures a == b && r == t
    decreases a, 0, 1
  {
    ItemsUnfold(a, r);
    ItemsUnfold(b, t);
    assert (PrintItems(a) + r)[0] == if a == [] then ']' else ',';
    assert (PrintItems(b) + t)[0] == if b == [] then ']' else ',';
    if a == [] && b == [] {
      Peel("]", "]", r, t);
    } else if a != [] && b != [] {
      Peel(",", ",", Print(a[0]) + (PrintItems(a[1..]) + r), Print(b[0]) + (PrintItems(b[1..]) + t));
      ElementPrefixFree(a, b, r, t);
    }
  }

  lemma {:induction false} ArrayPrefixFree(a: seq<Json>, b: seq<Json>, r: string, t: string)
    requires Printable(a) && Printable(b)
    requires Print(JArray(a)) + r == Print(JArray(b)) + t
    ensures a == b && r == t
    decreases a, 0, 1
  {
    ArrayUnfold(a, r);
    ArrayUnfold(b, t);
    var x := if a == [] then "]" + r else Print(a[0]) + (PrintItems(a[1..]) + r);
    var y := if b == [] then "]" + t else Print(b[0]) + (PrintItems(b[1..]) + t);
    Peel("[", "[", x, y);
    if a != [] { PrintStarts(a[0], PrintItems(a[1..]) + r); }
    if b != [] { PrintStarts(b[0], PrintItems(b[1..]) + t); }
    if a == [] && b == [] {
      Peel("]", "]", r, t);
    } else if a != [] && b != [] {
      ElementPrefixFree(a, b, r, t);
    }
  }

  lemma {:induction false} MemberPrefixFree(m: Member, n: Member, r: string, t: string)
    requires WellFormed(m.value) && Solid(m.value) && WellFormed(n.value) && Solid(n.value) && Stops(r) && Stops(t)
    requires PrintMember(m) + r == PrintMember(n) + t
    ensures m == n && r == t
    decreases m, 0, 0
  {
    MemberUnfold(m, r);
    MemberUnfold(n, t);
    QuotePrefixFree(m.key, n.key, ":" + (Print(m.value) + r), ":" + (Print(n.value) + t));
    Peel(":", ":", Print(m.value) + r, Print(n.value) + t);
    PrintPrefixFree(m.value, n.value, r, t);
  }

  lemma {:induction false} EntryPrefixFree(a: seq<Member>, b: seq<Member>, r: string, t: string)
    requires a != [] && b != [] && PrintableMembers(a) && PrintableMembers(b)
    requires PrintMember(a[0]) + (PrintMembers(a[1..]) + r) == PrintMember(b[0]) + (PrintMembers(b[1..]) + t)
    ensures a == b && r == t
    decreases a, 0, 0
  {
    MembersStop(a[1..], r);
    MembersStop(b[1..], t);
    MemberPrefixFree(a[0], b[0], PrintMembers(a[1..]) + r, PrintMembers(b[1..]) + t);
    MembersPrefixFree(a[1..], b[1..], r, t);
    assert a == [a[0]] + a[1..] && b == [b[0]] + b[1..];
  }

  lemma {:induction false} MembersPrefixFree(a: seq<Member>, b: seq<Member>, r: string, t: string)
    requires PrintableMembers(a) && PrintableMembers(b)
    requires PrintMembers(a) + r == PrintMembers(b) + t
    ensures a == b && r == t
    decreases a, 0, 1
  {
    MembersUnfold(a, r);
    MembersUnfold(b, t);
    assert (PrintMembers(a) + r)[0] == if a == [] then '}' else ',';
    assert (PrintMembers(b) + t)[0] == if b == [] then '}' else ',';
    if a == [] && b == [] {
      Peel("}", "}", r, t);
    } else if a != [] && b != [] {
      Peel(",", ",", PrintMember(a[0]) + (PrintMembers(a[1..]) + r), PrintMember(b[0]) + (PrintMembers(b[1..]) + t));
      EntryPrefixFree(a, b, r, t);
    }
  }

  lemma {:induction false} ObjectPrefixFree(a: seq<Member>, b: seq<Member>, r: string, t: string)
    requires PrintableMembers(a) && PrintableMembers(b)
    requires Print(JObject(a)) + r == Print(JObject(b)) + t
    ensures a == b && r == t
    decreases a, 0, 1
  {
    ObjectUnfold(a, r);
    ObjectUnfold(b, t);
    var x := if a == [] then "}" + r else PrintMember(a[0]) + (PrintMembers(a[1..]) + r);
    var y := if b == [] then "}" + t else PrintMember(b[0]) + (PrintMembers(b[1..]) + t);
    Peel("{", "{", x, y);
    if a != [] { MemberStarts(a[0], PrintMembers(a[1..]) + r); }
    if b != [] { MemberStarts(b[0], PrintMembers(b[1..]) + t); }
    if a == [] && b == [] {
      Peel("}", "}", r, t);
    } else if a != [] && b != [] {
      EntryPrefixFree(a, b, r, t);
    }
  }

  /** Two values have the same canonical text exactly when they mean the same, key order aside. */
  lemma CanonicalTextExact(a: Json, b: Json)
    requires WellFormed(a) && WellFormed(b)
    ensures CanonicalText(a) == CanonicalText(b) <==> MeaningOf(a) == MeaningOf(b)
  {
    SortKeysExact(a, b);
    if CanonicalText(a) == CanonicalText(b) {
      SortedIsWellFormed(a);
      SortedIsWellFormed(b);
      assert CanonicalText(a) + "" == CanonicalText(b) + "";
      PrintPrefixFree(SortKeys(a), SortKeys(b), "", "");
    }
  }
}
