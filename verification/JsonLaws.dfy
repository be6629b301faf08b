/**
 * How a value is written as JSON (RFC 8259, sections 3 to 7), text by text, and that reading the text gives it back.
 */
module JsonLaws {
  import opened Prelude
  import opened Sorting
  import opened CanonicalJson

  // ----- strings

  function HexValue(c: char): Option<nat> {
    if '0' <= c <= '9' then Some(c as int - '0' as int)
    else if 'a' <= c <= 'f' then Some(c as int - 'a' as int + 10)
    else None
  }

  /** The character that a two-character escape stands for. */
  function ShortEscape(c: char): Option<char> {
    match c
    case '\"' => Some('\"')
    case '\\' => Some('\\')
    case 'b' => Some(8 as char)
    case 'f' => Some(12 as char)
    case 'n' => Some(10 as char)
    case 'r' => Some(13 as char)
    case 't' => Some(9 as char)
    case _ => None
  }

  /** Reads the inside of a string; a control character must be escaped, and the quotation mark ends the string. */
  function ReadText(s: string): Option<string>
    decreases |s|
  {
    if s == "" then Some("")
    else if s[0] != '\\' then
      if s[0] as int < 32 || s[0] == '\"' then None else Before(s[0], ReadText(s[1..]))
    else if |s| < 2 then None
    else if ShortEscape(s[1]).Some? then Before(ShortEscape(s[1]).value, ReadText(s[2..]))
    else if |s| < 6 || s[1..4] != "u00" then None
    else
      match (HexValue(s[4]), HexValue(s[5]))
      case (Some(high), Some(low)) => Before((high * 16 + low) as char, ReadText(s[6..]))
      case _ => None
  }

  function Before(c: char, rest: Option<string>): Option<string> {
    if rest.Some? then Some([c] + rest.value) else None
  }

  lemma HexReads(n: nat)
    requires n < 16
    ensures HexValue(Hex(n)) == Some(n)
  {}

  lemma ControlReads(c: char, rest: string)
    requires c as int < 32 && |EscapeChar(c)| == 6
    ensures ReadText(EscapeChar(c) + rest) == Before(c, ReadText(rest))
  {
    var s := EscapeChar(c) + rest;
    HexReads(c as int / 16);
    HexReads(c as int % 16);
    assert s[6..] == rest && s[1..4] == "u00" && s[4] == Hex(c as int / 16) && s[5] == Hex(c as int % 16);
    assert (c as int / 16 * 16 + c as int % 16) as char == c;
  }

  lemma EscapeReads(c: char, rest: string)
    ensures ReadText(EscapeChar(c) + rest) == Before(c, ReadText(rest))
  {
    var s := EscapeChar(c) + rest;
    if |EscapeChar(c)| == 6 {
      ControlReads(c, rest);
    } else {
      assert s[|EscapeChar(c)|..] == rest;
    }
  }

  /** A text that is written is read back. */
  lemma {:induction false} TextReadsBack(text: string)
    ensures ReadText(Escape(text)) == Some(text)
  {
    if text != "" {
      TextReadsBack(text[1..]);
      EscapeReads(text[0], Escape(text[1..]));
      assert text == [text[0]] + text[1..];
    }
  }

  // ----- values

  /** The texts one after the other with commas between. */
  function Commas(texts: seq<string>): string {
    if |texts| == 0 then "" else if |texts| == 1 then texts[0]
    else Commas(texts[..|texts| - 1]) + "," + texts[|texts| - 1]
  }

  ghost function Texts(items: seq<Json>): seq<string> {
    seq(|items|, i requires 0 <= i < |items| => Print(items[i]))
  }

  ghost function MemberTexts(members: seq<Member>): seq<string> {
    seq(|members|, i requires 0 <= i < |members| => Quote(members[i].key) + ":" + Print(members[i].value))
  }

  lemma {:induction false} CommasFirst(texts: seq<string>)
    requires |texts| >= 2
    ensures Commas(texts) == texts[0] + "," + Commas(texts[1..])
  {
    var n := |texts| - 1;
    if n == 1 {
      assert texts[..1] == [texts[0]] && texts[1..] == [texts[1]];
      assert Commas(texts[..1]) == texts[0];
    } else {
      CommasFirst(texts[..n]);
      assert texts[..n][1..] == texts[1..][..n - 1];
      assert Commas(texts) == texts[0] + "," + Commas(texts[1..][..n - 1]) + "," + texts[n];
      assert Commas(texts[1..]) == Commas(texts[1..][..n - 1]) + "," + texts[n];
    }
  }

  lemma Glued(first: string, rest: string, end: string)
    ensures first + ("," + (rest + end)) == (first + "," + rest) + end
  {}

  lemma ItemsUnfold(items: seq<Json>)
    requires |items| > 1
    ensures PrintItems(items[1..]) == "," + (Print(items[1..][0]) + PrintItems(items[1..][1..]))
    ensures Texts(items)[0] == Print(items[0]) && Texts(items)[1..] == Texts(items[1..])
  {}

  lemma {:induction false} ItemsAreCommas(items: seq<Json>)
    requires items != []
    ensures Print(items[0]) + PrintItems(items[1..]) == Commas(Texts(items)) + "]"
  {
    if |items| > 1 {
      ItemsAreCommas(items[1..]);
      ItemsUnfold(items);
      CommasFirst(Texts(items));
      Glued(Print(items[0]), Commas(Texts(items[1..])), "]");
    }
  }

  lemma MembersUnfold(members: seq<Member>)
    requires |members| > 1
    ensures PrintMembers(members[1..]) == "," + (PrintMember(members[1..][0]) + PrintMembers(members[1..][1..]))
    ensures MemberTexts(members)[0] == PrintMember(members[0]) && MemberTexts(members)[1..] == MemberTexts(members[1..])
  {}

  lemma {:induction false} MembersAreCommas(members: seq<Member>)
    requires members != []
    ensures PrintMember(members[0]) + PrintMembers(members[1..]) == Commas(MemberTexts(members)) + "}"
  {
    if |members| > 1 {
      MembersAreCommas(members[1..]);
      MembersUnfold(members);
      CommasFirst(MemberTexts(members));
      Glued(PrintMember(members[0]), Commas(MemberTexts(members[1..])), "}");
    }
  }

  lemma Bracketed(open: string, first: string, rest: string)
    ensures open + first + rest == open + (first + rest)
  {}

  lemma BracketedEnd(open: string, inside: string, end: string)
    ensures open + (inside + end) == open + inside + end
  {}

  lemma ArrayText(items: seq<Json>)
    ensures Print(JArray(items)) == "[" + Commas(Texts(items)) + "]"
  {
    if items != [] {
      ItemsAreCommas(items);
      Bracketed("[", Print(items[0]), PrintItems(items[1..]));
      BracketedEnd("[", Commas(Texts(items)), "]");
    }
  }

  lemma ObjectText(members: seq<Member>)
    ensures Print(JObject(members)) == "{" + Commas(MemberTexts(members)) + "}"
  {
    if members != [] {
      MembersAreCommas(members);
      Bracketed("{", PrintMember(members[0]), PrintMembers(members[1..]));
      BracketedEnd("{", Commas(MemberTexts(members)), "}");
    }
  }

  /** Literal names, numbers as they are, quoted strings that read back, arrays and objects with commas between. */
  lemma PrintMeans(j: Json)
    ensures match j
            case JUndefined => Print(j) == "null"
            case JNull => Print(j) == "null"
            case JBool(true) => Print(j) == "true"
            case JBool(false) => Print(j) == "false"
            case JNumber(digits) => Print(j) == digits
            case JText(text) =>
              exists inside :: Print(j) == "\"" + inside + "\"" && ReadText(inside) == Some(text)
            case JArray(items) => Print(j) == "[" + Commas(Texts(items)) + "]"
            case JObject(members) => Print(j) == "{" + Commas(MemberTexts(members)) + "}"
  {
    match j
    case JText(text) =>
      TextReadsBack(text);
      assert Print(j) == "\"" + Escape(text) + "\"";
    case JArray(items) => ArrayText(items);
    case JObject(members) => ObjectText(members);
    case _ =>
  }

  // ----- the order of the keys

  /** The two texts agree on their first `n` characters. */
  predicate AgreeFor(a: string, b: string, n: nat) {
    n <= |a| && n <= |b| && a[..n] == b[..n]
  }

  /** `a` is the beginning of `b`, and shorter, or has the smaller character at `n`, where they first differ. */
  predicate LessAt(a: string, b: string, n: nat) {
    AgreeFor(a, b, n) && n < |b| && (n == |a| || (n < |a| && a[n] < b[n]))
  }

  lemma OtherBeginnings(a: string, b: string, n: nat)
    requires a != [] && b != [] && a[0] != b[0] && n > 0
    ensures !AgreeFor(a, b, n)
  {
    if n <= |a| && n <= |b| {
      assert a[..n][0] == a[0] && b[..n][0] == b[0];
    }
  }

  /** `a` is the beginning of `b`, or has the smaller character where they first differ. */
  lemma {:induction false} TextLessMeans(a: string, b: string)
    ensures TextLess(a, b) <==> exists n: nat :: LessAt(a, b, n)
  {
    if a != [] && b != [] && a[0] == b[0] {
      TextLessMeans(a[1..], b[1..]);
      if n: nat :| LessAt(a, b, n) {
        assert n > 0;
        assert a[1..][..n - 1] == a[..n][1..] && b[1..][..n - 1] == b[..n][1..];
        assert LessAt(a[1..], b[1..], n - 1);
      }
      if n: nat :| LessAt(a[1..], b[1..], n) {
        assert a[..n + 1] == [a[0]] + a[1..][..n] && b[..n + 1] == [b[0]] + b[1..][..n];
        assert LessAt(a, b, n + 1);
      }
    } else if a == [] || b == [] {
      assert LessAt(a, b, 0) <==> b != [];
    } else {
      assert LessAt(a, b, 0) <==> a[0] < b[0];
      forall n: nat | n > 0 ensures !AgreeFor(a, b, n) {
        OtherBeginnings(a, b, n);
      }
    }
  }

  /** The members of a sorted object: the defined ones with their values sorted, in ascending order of their keys. */
  ghost predicate InKeyOrder(members: seq<Member>, sorted: seq<Member>) {
    && (forall i, j :: 0 <= i < j < |sorted| ==> TextLess(sorted[i].key, sorted[j].key))
    && forall x :: x in sorted <==> SortedFrom(members, x)
  }

  ghost predicate SortedFrom(members: seq<Member>, x: Member) {
    exists m :: m in members && m.value != JUndefined && m.key == x.key && SortKeys(m.value) == x.value
  }

  lemma SortMeans(members: seq<Member>)
    requires KeysOnce(members)
    ensures SortKeys(JObject(members)).JObject? && InKeyOrder(members, SortKeys(JObject(members)).members)
  {
    var before := SortMembers(members);
    SortMembersOnce(members);
    TextLessOrders();
    assert StrictWeak(MemberLess);
    SortSorts(MemberLess, before);
    SameElements(Sort(MemberLess, before), before);
    forall x ensures x in before <==> SortedFrom(members, x) {
      SortMembersHas(members, x);
    }
    SortedKeysDiffer(before, Sort(MemberLess, before));
  }

  lemma SortedKeysDiffer(before: seq<Member>, sorted: seq<Member>)
    requires KeysOnce(before) && multiset(sorted) == multiset(before) && Sorted(MemberLess, sorted)
    ensures forall i, j :: 0 <= i < j < |sorted| ==> TextLess(sorted[i].key, sorted[j].key)
  {
    SameElements(sorted, before);
    forall i, j | 0 <= i < j < |sorted| ensures TextLess(sorted[i].key, sorted[j].key) {
      var x, y := sorted[i], sorted[j];
      assert x in before && y in before;
      MemberCount(before, x);
      if x == y {
        TwiceCounted(sorted, i, j);
      }
      var a :| 0 <= a < |before| && before[a] == x;
      var b :| 0 <= b < |before| && before[b] == y;
      assert x.key != y.key;
      TextLessTotal(x.key, y.key);
    }
  }
}
