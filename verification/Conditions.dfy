/**
 * The condition language of src/modules/shared/conditions.ts: leaves over captured facts, combined by
 * `all` and `any`. Reading a piece of text as a yes/no, a number or a lower-cased word is JavaScript
 * coercion; it enters every member as the total function `norm`.
 */
module Conditions {
  import opened Prelude

  datatype Value = Null | Bool(flag: bool) | Num(number: real) | Str(text: string)

  /** An absent key is JavaScript's `undefined`. */
  type Facts = map<string, Value>

  type Reading = string -> Value

  datatype Operator = Eq | Ne | Gt | Gte | Lt | Lte | In | Exists

  datatype Operand = Absent | One(v: Value) | Many(vs: seq<Value>)

  /** `Malformed` is a condition object that names no operator; it never matches. */
  datatype Condition =
    | All(parts: seq<Condition>)
    | Any(parts: seq<Condition>)
    | Leaf(factKey: string, op: Operator, operand: Operand)
    | Malformed(named: Option<string>)

  function Lookup(facts: Facts, key: string): Option<Value> {
    if key in facts then Some(facts[key]) else None
  }

  /** A fact counts as captured when it has a value other than null and the empty text. */
  predicate Captured(facts: Facts, key: string) {
    key in facts && facts[key] != Null && facts[key] != Str("")
  }

  function Normalize(norm: Reading, v: Value): Value {
    match v
    case Str(t) => norm(t)
    case _ => v
  }

  function FirstOperand(norm: Reading, b: Operand): Option<Value> {
    match b
    case Absent => None
    case One(v) => Some(Normalize(norm, v))
    case Many(vs) => if vs == [] then None else Some(Normalize(norm, vs[0]))
  }

  predicate Ordered(op: Operator, x: real, y: real) {
    if op.Gt? then x > y
    else if op.Gte? then x >= y
    else if op.Lt? then x < y
    else op.Lte? && x <= y
  }

  predicate Compare(norm: Reading, a: Option<Value>, op: Operator, b: Operand) {
    if a.None? then false
    else
      var x := Normalize(norm, a.value);
      if op.Exists? then x != Null && x != Str("")
      else if x == Null then false
      else if op.In? then b.Many? && exists y :: y in b.vs && Normalize(norm, y) == x
      else
        var y := FirstOperand(norm, b);
        if op.Eq? then Some(x) == y
        else if op.Ne? then Some(x) != y
        else if x.Num? && y.Some? && y.value.Num? then Ordered(op, x.number, y.value.number)
        else false
  }

  predicate Matches(norm: Reading, c: Condition, facts: Facts)
    decreases c
  {
    match c
    case All(parts) => forall p | p in parts :: Matches(norm, p, facts)
    case Any(parts) => exists p | p in parts :: Matches(norm, p, facts)
    case Leaf(factKey, op, operand) => Compare(norm, Lookup(facts, factKey), op, operand)
    case Malformed(_) => false
  }

  // ----- what a condition means

  /** A text reads as what it says, anything else as itself. */
  lemma ReadingMeans(norm: Reading, v: Value)
    ensures Normalize(norm, v) == if v.Str? then norm(v.text) else v
  {}

  /** Both facts read as numbers, and the first stands in the order `op` to the second. */
  ghost predicate NumbersIn(op: Operator, x: Value, y: Value) {
    && x.Num? && y.Num?
    && match op
       case Gt => y.number < x.number
       case Gte => y.number <= x.number
       case Lt => x.number < y.number
       case Lte => x.number <= y.number
       case _ => false
  }

  /** What each operator asks of a fact, given the value it is compared with. */
  lemma OperatorsMean(norm: Reading, facts: Facts, key: string, w: Value)
    ensures var x, y := if key in facts then Normalize(norm, facts[key]) else Null, Normalize(norm, w);
            && (Matches(norm, Leaf(key, Eq, One(w)), facts) <==> x != Null && x == y)
            && (Matches(norm, Leaf(key, Ne, One(w)), facts) <==> x != Null && x != y)
            && (forall op: Operator :: op.Gt? || op.Gte? || op.Lt? || op.Lte?
                             ==> (Matches(norm, Leaf(key, op, One(w)), facts) <==> NumbersIn(op, x, y)))
            && !Matches(norm, Leaf(key, In, One(w)), facts)
  {}

  /**
   * A fact exists when it reads as something; a list is asked whether it has the fact, and is else read as its head.
   */
  lemma ListsMean(norm: Reading, facts: Facts, key: string, vs: seq<Value>, operand: Operand)
    ensures var x := if key in facts then Normalize(norm, facts[key]) else Null;
            && (Matches(norm, Leaf(key, Exists, operand), facts) <==> x != Null && x != Str(""))
            && (Matches(norm, Leaf(key, In, Many(vs)), facts)
                <==> x != Null && exists y :: y in vs && Normalize(norm, y) == x)
            && (vs != [] ==> forall op: Operator :: op != In ==>
                  (Matches(norm, Leaf(key, op, Many(vs)), facts) <==> Matches(norm, Leaf(key, op, One(vs[0])), facts)))
            && (forall op: Operator, none: Operand ::
                  (none == Absent || none == Many([])) && op != Exists && op != Ne
                  ==> !Matches(norm, Leaf(key, op, none), facts))
            && (Matches(norm, Leaf(key, Ne, Absent), facts) <==> x != Null)
            && (Matches(norm, Leaf(key, Ne, Many([])), facts) <==> x != Null)
  {
    forall op: Operator, none: Operand | (none == Absent || none == Many([])) && op != Exists && op != Ne
      ensures !Matches(norm, Leaf(key, op, none), facts)
    {
      assert FirstOperand(norm, none) == None;
      assert op.In? && none.Many? ==> none.vs == [];
    }
  }

  /** A group asks for all or for one of its parts, and a condition that names no operator never holds. */
  lemma GroupsMean(norm: Reading, facts: Facts, parts: seq<Condition>, named: Option<string>)
    ensures Matches(norm, All(parts), facts) <==> forall i :: 0 <= i < |parts| ==> Matches(norm, parts[i], facts)
    ensures Matches(norm, Any(parts), facts) <==> exists i :: 0 <= i < |parts| && Matches(norm, parts[i], facts)
    ensures !Matches(norm, Malformed(named), facts)
  {
    forall p | p in parts ensures exists i :: 0 <= i < |parts| && parts[i] == p {}
  }

  function FactKeysOf(c: Condition): (keys: set<string>)
    decreases c
  {
    match c
    case All(parts) => set p, k | p in parts && k in FactKeysOf(p) :: k
    case Any(parts) => set p, k | p in parts && k in FactKeysOf(p) :: k
    case Leaf(factKey, _, _) => {factKey}
    case Malformed(named) => if named.Some? then {named.value} else {}
  }

  predicate AgreeOn(f: Facts, g: Facts, keys: set<string>) {
    forall k | k in keys :: Lookup(f, k) == Lookup(g, k)
  }

  /** A condition reads no fact outside `FactKeysOf`. */
  lemma {:induction false} MatchesReadsOnlyItsKeys(norm: Reading, c: Condition, f: Facts, g: Facts)
    requires AgreeOn(f, g, FactKeysOf(c))
    ensures Matches(norm, c, f) == Matches(norm, c, g)
    decreases c
  {
    if c.All? || c.Any? {
      forall p | p in c.parts
        ensures Matches(norm, p, f) == Matches(norm, p, g)
      {
        forall k | k in FactKeysOf(p)
          ensures Lookup(f, k) == Lookup(g, k)
        {
          assert k in FactKeysOf(c);
        }
        MatchesReadsOnlyItsKeys(norm, p, f, g);
      }
    }
  }
}
