/** Hard rules (src/modules/rules/engine.ts): filter the rules that fire, sort them, take the first. */
module RuleEngine {
  import opened Prelude
  import opened Conditions
  import opened Sorting

  datatype Classification = MonitorOnly | Risk | ElevatedRisk | Issue

  datatype Rule = Rule(
    id: string, key: string, name: string, trigger: Condition,
    forcedClassification: Classification, forcedAction: Option<string>, priority: int)

  datatype RuleResult = RuleResult(winner: Rule, fired: seq<Rule>)

  function SeverityRank(c: Classification): (n: nat) {
    match c
    case MonitorOnly => 0
    case Risk => 1
    case ElevatedRisk => 2
    case Issue => 3
  }

  /** Lower priority first; on equal priority the more severe classification first. */
  predicate Precedes(a: Rule, b: Rule) {
    a.priority < b.priority
    || (a.priority == b.priority
        && SeverityRank(a.forcedClassification) > SeverityRank(b.forcedClassification))
  }

  function Fires(norm: Reading, facts: Facts): Rule -> bool {
    (r: Rule) => Matches(norm, r.trigger, facts)
  }

  function Evaluate(norm: Reading, rules: seq<Rule>, facts: Facts): Option<RuleResult> {
    var fired := Sort(Precedes, Filter(Fires(norm, facts), rules));
    if fired == [] then None else Some(RuleResult(fired[0], fired))
  }

  /** No winner means that no trigger matched, and the other way round. */
  lemma NothingFires(norm: Reading, rules: seq<Rule>, facts: Facts)
    ensures Evaluate(norm, rules, facts).None? <==> forall x :: x in rules ==> !Matches(norm, x.trigger, facts)
  {
    var firing := Filter(Fires(norm, facts), rules);
    FilterMembers(Fires(norm, facts), rules);
    SameElements(Sort(Precedes, firing), firing);
    if firing != [] {
      assert firing[0] in firing;
    } else {
      forall x | x in rules ensures !Matches(norm, x.trigger, facts) {
        assert x !in firing;
      }
    }
  }

  lemma PrecedesIsAnOrder()
    ensures StrictWeak(Precedes)
  {}

  /** `w` is a best rule among those of `rules` that fire. */
  ghost predicate Best(norm: Reading, rules: seq<Rule>, facts: Facts, w: Rule) {
    && w in rules && Matches(norm, w.trigger, facts)
    && forall r :: r in rules && Matches(norm, r.trigger, facts) ==> !Precedes(r, w)
  }

  /** The winner fired, and no rule that fired beats it on (priority, severity). */
  lemma WinnerIsBest(norm: Reading, rules: seq<Rule>, facts: Facts)
    requires Evaluate(norm, rules, facts).Some?
    ensures Best(norm, rules, facts, Evaluate(norm, rules, facts).value.winner)
    ensures multiset(Evaluate(norm, rules, facts).value.fired) == multiset(Filter(Fires(norm, facts), rules))
    ensures Sorted(Precedes, Evaluate(norm, rules, facts).value.fired)
  {
    var firing := Filter(Fires(norm, facts), rules);
    var fired := Sort(Precedes, firing);
    SameElements(fired, firing);
    FilterMembers(Fires(norm, facts), rules);
    PrecedesIsAnOrder();
    SortSorts(Precedes, firing);
    assert fired[0] in fired;
    forall r | r in rules && Matches(norm, r.trigger, facts)
      ensures !Precedes(r, fired[0])
    {
      assert Fires(norm, facts)(r) && r in firing && r in fired;
      var i :| 0 <= i < |fired| && fired[i] == r;
    }
  }

  /** Rule `i` fires, comes before every rule that fires and stands later, and beats every one that stands earlier. */
  ghost predicate FirstBest(norm: Reading, rules: seq<Rule>, facts: Facts, i: nat) {
    && i < |rules| && Matches(norm, rules[i].trigger, facts)
    && (forall j :: 0 <= j < i && Matches(norm, rules[j].trigger, facts) ==> Precedes(rules[i], rules[j]))
    && (forall j :: i < j < |rules| && Matches(norm, rules[j].trigger, facts) ==> !Precedes(rules[j], rules[i]))
  }

  /** One more rule in front, which does not fire or is beaten. */
  lemma FirstBestBehind(norm: Reading, rules: seq<Rule>, facts: Facts, k: nat)
    requires rules != [] && FirstBest(norm, rules[1..], facts, k)
    requires Matches(norm, rules[0].trigger, facts) ==> Precedes(rules[k + 1], rules[0])
    ensures FirstBest(norm, rules, facts, k + 1)
  {
    var rest := rules[1..];
    assert forall j :: 1 <= j < |rules| ==> rules[j] == rest[j - 1];
  }

  /** One more rule in front, which fires and is not beaten by the best of the others. */
  lemma FirstBestAhead(norm: Reading, rules: seq<Rule>, facts: Facts)
    requires rules != [] && Matches(norm, rules[0].trigger, facts)
    requires forall r :: r in rules[1..] && Matches(norm, r.trigger, facts) ==> !Precedes(r, rules[0])
    ensures FirstBest(norm, rules, facts, 0)
  {
    assert forall j :: 1 <= j < |rules| ==> rules[j] == rules[1..][j - 1] && rules[j] in rules[1..];
  }

  /** Whatever a best rule does not precede, no rule that fires precedes. */
  lemma UnbeatenByBest(norm: Reading, rules: seq<Rule>, facts: Facts, w: Rule, x: Rule)
    requires Best(norm, rules, facts, w) && !Precedes(w, x)
    ensures forall r :: r in rules && Matches(norm, r.trigger, facts) ==> !Precedes(r, x)
  {}

  lemma InFront(x: Rule, behind: seq<Rule>)
    ensures Sort(Precedes, [x] + behind) != []
    ensures Sort(Precedes, [x] + behind)[0]
            == if behind != [] && Precedes(Sort(Precedes, behind)[0], x) then Sort(Precedes, behind)[0] else x
  {
    assert ([x] + behind)[1..] == behind;
    assert |multiset(Sort(Precedes, behind))| == |multiset(behind)|;
  }

  /** The winner among a rule and the rules behind it. */
  lemma WinnerStep(norm: Reading, rules: seq<Rule>, facts: Facts)
    requires rules != []
    ensures var rest := Evaluate(norm, rules[1..], facts);
            var all := Evaluate(norm, rules, facts);
            if !Matches(norm, rules[0].trigger, facts) then all == rest
            else if rest.Some? && Precedes(rest.value.winner, rules[0]) then
              all.Some? && all.value.winner == rest.value.winner
            else all.Some? && all.value.winner == rules[0]
  {
    var p := Fires(norm, facts);
    var behind := Filter(p, rules[1..]);
    if p(rules[0]) {
      assert Filter(p, rules) == [rules[0]] + behind;
      InFront(rules[0], behind);
    } else {
      assert Filter(p, rules) == behind;
    }
  }

  /** Of rules that are equally good the first in the list wins. */
  lemma {:induction false} WinnerIsFirstBest(norm: Reading, rules: seq<Rule>, facts: Facts) returns (i: nat)
    requires Evaluate(norm, rules, facts).Some?
    ensures FirstBest(norm, rules, facts, i) && Evaluate(norm, rules, facts).value.winner == rules[i]
  {
    var rest := rules[1..];
    WinnerStep(norm, rules, facts);
    if Evaluate(norm, rest, facts).None? {
      NothingFires(norm, rest, facts);
      FirstBestAhead(norm, rules, facts);
      i := 0;
    } else {
      var w := Evaluate(norm, rest, facts).value.winner;
      WinnerIsBest(norm, rest, facts);
      var k := WinnerIsFirstBest(norm, rest, facts);
      if Matches(norm, rules[0].trigger, facts) && !Precedes(w, rules[0]) {
        UnbeatenByBest(norm, rest, facts, w, rules[0]);
        FirstBestAhead(norm, rules, facts);
        i := 0;
      } else {
        FirstBestBehind(norm, rules, facts, k);
        i := k + 1;
      }
    }
  }

  lemma BestRulesAgree(norm: Reading, a: seq<Rule>, b: seq<Rule>, facts: Facts, v: Rule, w: Rule)
    requires forall r :: r in a <==> r in b
    requires Best(norm, a, facts, v) && Best(norm, b, facts, w)
    ensures v.priority == w.priority && v.forcedClassification == w.forcedClassification
  {}

  /** Neither what fires nor the forced classification depends on the order in which the rules are listed. */
  lemma OrderOfRulesIsIrrelevant(norm: Reading, a: seq<Rule>, b: seq<Rule>, facts: Facts)
    requires multiset(a) == multiset(b)
    ensures match (Evaluate(norm, a, facts), Evaluate(norm, b, facts))
            case (None, None) => true
            case (Some(x), Some(y)) =>
              && x.winner.forcedClassification == y.winner.forcedClassification
              && multiset(x.fired) == multiset(y.fired)
            case _ => false
  {
    var x, y := Evaluate(norm, a, facts), Evaluate(norm, b, facts);
    SameElements(a, b);
    NothingFires(norm, a, facts);
    NothingFires(norm, b, facts);
    if x.Some? && y.Some? {
      WinnerIsBest(norm, a, facts);
      WinnerIsBest(norm, b, facts);
      BestRulesAgree(norm, a, b, facts, x.value.winner, y.value.winner);
      FilterPermutation(Fires(norm, facts), a, b);
    }
  }

  function TriggerKeys(rules: seq<Rule>): set<string> {
    set r, k | r in rules && k in FactKeysOf(r.trigger) :: k
  }

  /** Rules read nothing but the fact keys named in their triggers. */
  lemma RulesReadOnlyTheirKeys(norm: Reading, rules: seq<Rule>, f: Facts, g: Facts)
    requires AgreeOn(f, g, TriggerKeys(rules))
    ensures Evaluate(norm, rules, f) == Evaluate(norm, rules, g)
  {
    forall r | r in rules
      ensures Matches(norm, r.trigger, f) == Matches(norm, r.trigger, g)
    {
      forall k | k in FactKeysOf(r.trigger) ensures Lookup(f, k) == Lookup(g, k) {
        assert k in TriggerKeys(rules);
      }
      MatchesReadsOnlyItsKeys(norm, r.trigger, f, g);
    }
    SameFilter(Fires(norm, f), Fires(norm, g), rules);
  }

  lemma {:induction false} SameFilter(p: Rule -> bool, q: Rule -> bool, rules: seq<Rule>)
    requires forall r :: r in rules ==> p(r) == q(r)
    ensures Filter(p, rules) == Filter(q, rules)
  {
    if rules != [] {
      SameFilter(p, q, rules[1..]);
    }
  }
}
