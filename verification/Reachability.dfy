/**
 * Which questions a scenario can reach. Four places walk the branch links by hand: pinning
 * (src/modules/assessments/content.ts), scenario activation (src/modules/scenarios/service.ts), dataset
 * validation (src/modules/datasets/service.ts) and the release gate (src/modules/datasets/content-verify.ts).
 * Each is proved to end on any graph, cycles included, and to find exactly the reachable active questions.
 */
module Reachability {
  import opened Prelude

  /** An active question: the fact it produces and the follow-ups its branch names. */
  datatype Node = Node(factKey: string, followUps: seq<string>)

  type Graph = map<string, Node>

  // ----- reachability by paths

  ghost predicate IsPath(g: Graph, flow: set<string>, path: seq<string>) {
    && path != [] && path[0] in flow
    && forall i :: 0 <= i < |path| - 1 ==> path[i] in g && path[i + 1] in g[path[i]].followUps
  }

  /** A key the flow leads to, active or not. */
  ghost predicate Mentioned(g: Graph, flow: set<string>, key: string) {
    exists path :: IsPath(g, flow, path) && path[|path| - 1] == key
  }

  ghost predicate Reachable(g: Graph, flow: set<string>, key: string) {
    key in g && Mentioned(g, flow, key)
  }

  /** A link that leads to no active question. */
  ghost predicate Dangling(g: Graph, flow: set<string>, key: string) {
    key !in g && Mentioned(g, flow, key)
  }

  ghost predicate IsClosure(g: Graph, flow: set<string>, s: set<string>) {
    forall k :: k in s <==> Reachable(g, flow, k)
  }

  ghost predicate IsDangling(g: Graph, flow: set<string>, s: set<string>) {
    forall k :: k in s <==> Dangling(g, flow, k)
  }

  function FactsOfKeys(g: Graph, s: set<string>): set<string> {
    set k | k in s && k in g :: g[k].factKey
  }

  lemma FlowIsMentioned(g: Graph, flow: set<string>, key: string)
    requires key in flow
    ensures Mentioned(g, flow, key)
  {
    assert IsPath(g, flow, [key]) && [key][|[key]| - 1] == key;
  }

  lemma FollowUpIsMentioned(g: Graph, flow: set<string>, key: string, next: string)
    requires Reachable(g, flow, key) && next in g[key].followUps
    ensures Mentioned(g, flow, next)
  {
    var path :| IsPath(g, flow, path) && path[|path| - 1] == key;
    var longer := path + [next];
    assert IsPath(g, flow, longer) && longer[|longer| - 1] == next;
  }

  // ----- what every worklist keeps

  /** Every link met so far is found, pending or known to dangle, and all of them are mentioned. */
  ghost predicate Walking(g: Graph, flow: set<string>, found: set<string>, pending: set<string>, missing: set<string>) {
    && found <= g.Keys && missing !! g.Keys
    && (forall k :: k in found || k in pending || k in missing ==> Mentioned(g, flow, k))
    && (forall k :: k in flow ==> k in found || k in pending || k in missing)
    && (forall k, b :: k in found && b in g[k].followUps ==> b in found || b in pending || b in missing)
  }

  lemma {:induction false} PathStaysInside(g: Graph, flow: set<string>, found: set<string>, missing: set<string>,
                                           path: seq<string>)
    requires Walking(g, flow, found, {}, missing) && IsPath(g, flow, path)
    ensures path[|path| - 1] in found || path[|path| - 1] in missing
  {
    if |path| > 1 {
      var n := |path| - 1;
      PathStaysInside(g, flow, found, missing, path[..n]);
      assert path[n - 1] in g && path[n] in g[path[n - 1]].followUps;
    }
  }

  /** With nothing pending, exactly the reachable keys are found and exactly the dangling links are missing. */
  lemma WalkedAll(g: Graph, flow: set<string>, found: set<string>, missing: set<string>)
    requires Walking(g, flow, found, {}, missing)
    ensures IsClosure(g, flow, found) && IsDangling(g, flow, missing)
  {
    forall k | Mentioned(g, flow, k) ensures k in found || k in missing {
      var path :| IsPath(g, flow, path) && path[|path| - 1] == k;
      PathStaysInside(g, flow, found, missing, path);
    }
  }

  lemma VisitKeepsWalking(g: Graph, flow: set<string>, found: set<string>, pending: set<string>, missing: set<string>,
                          key: string)
    requires Walking(g, flow, found, pending, missing) && key in pending && key in g
    ensures Walking(g, flow, found + {key}, pending - {key} + (Elements(g[key].followUps) - (found + {key})), missing)
    ensures Walking(g, flow, found + {key}, pending - {key} + Elements(g[key].followUps), missing)
  {
    forall b | b in g[key].followUps ensures Mentioned(g, flow, b) {
      FollowUpIsMentioned(g, flow, key, b);
    }
  }

  lemma StartWalking(g: Graph, flow: set<string>)
    ensures Walking(g, flow, {}, flow, {})
  {
    forall k | k in flow ensures Mentioned(g, flow, k) { FlowIsMentioned(g, flow, k); }
  }

  /** Whether a key already found or missing is pending as well makes no difference. */
  lemma SamePending(g: Graph, flow: set<string>, found: set<string>, a: set<string>, b: set<string>,
                    missing: set<string>)
    requires Walking(g, flow, found, a, missing) && b <= a + found + missing && a <= b + found + missing
    ensures Walking(g, flow, found, b, missing)
  {}

  /** Meets one active key of the frontier: a key found before adds nothing. */
  method Meet(g: Graph, ghost flow: set<string>, key: string, ghost docs: set<string>, before: set<string>,
              queued: set<string>, ghost missing: set<string>)
    returns (found: set<string>, next: set<string>)
    requires Walking(g, flow, before, {key} + docs + queued, missing) && key in g
    ensures Walking(g, flow, found, docs + next, missing)
    ensures found == before + {key} && (key in before ==> next == queued)
  {
    ghost var pending := {key} + docs + queued;
    if key in before {
      found, next := before, queued;
      assert found == before + {key};
      SamePending(g, flow, found, pending, docs + next, missing);
    } else {
      found := before + {key};
      var added := Elements(g[key].followUps) - found;
      VisitKeepsWalking(g, flow, before, pending, missing, key);
      next := queued + added;
      SamePending(g, flow, found, pending - {key} + added, docs + next, missing);
    }
  }

  /** One level of a breadth-first walk: the active keys of the frontier are found, their new links come next. */
  method WalkLevel(g: Graph, ghost flow: set<string>, frontier: set<string>, before: set<string>,
                   ghost missing: set<string>)
    returns (found: set<string>, next: set<string>)
    requires Walking(g, flow, before, frontier, missing)
    ensures Walking(g, flow, found, next, missing + (frontier - g.Keys))
    ensures before <= found && (found == before ==> next == {})
  {
    found, next := before, {};
    var docs := frontier * g.Keys;
    ghost var lost := missing + (frontier - g.Keys);
    LevelStarts(g, flow, before, frontier, missing);
    while docs != {}
      invariant docs <= g.Keys
      invariant Walking(g, flow, found, docs + next, lost)
      invariant before <= found && (found == before ==> next == {})
      decreases docs
    {
      var key :| key in docs;
      assert docs + next == {key} + (docs - {key}) + next;
      docs := docs - {key};
      found, next := Meet(g, flow, key, docs, found, next, lost);
    }
    assert {} + next == next;
  }

  lemma LevelStarts(g: Graph, flow: set<string>, found: set<string>, frontier: set<string>, missing: set<string>)
    requires Walking(g, flow, found, frontier, missing)
    ensures Walking(g, flow, found, (frontier * g.Keys) + {}, missing + (frontier - g.Keys))
  {}

  lemma FewerLeft(g: Graph, found: set<string>, found': set<string>)
    requires found <= found' <= g.Keys && found != found'
    ensures g.Keys - found' < g.Keys - found
  {
    var k :| k in found' && k !in found;
    assert k in g.Keys - found && k !in g.Keys - found';
  }

  // ----- the four walks

  /** Pinning: missing keys are passed over in silence. */
  method QuestionMap(g: Graph, flow: set<string>) returns (found: set<string>)
    ensures IsClosure(g, flow, found)
  {
    found := {};
    var frontier := flow;
    ghost var missing: set<string> := {};
    StartWalking(g, flow);
    while frontier != {}
      invariant Walking(g, flow, found, frontier, missing)
      decreases g.Keys - found, frontier
    {
      var found', next := WalkLevel(g, flow, frontier, found, missing);
      if found' != found { FewerLeft(g, found, found'); }
      missing := missing + (frontier - g.Keys);
      found, frontier := found', next;
    }
    WalkedAll(g, flow, found, missing);
  }

  /** Scenario activation: the first level with a missing key refuses the scenario and names those keys. */
  method ActivationWalk(g: Graph, flow: set<string>) returns (r: Result<set<string>, set<string>>)
    ensures r.Ok? <==> forall k :: !Dangling(g, flow, k)
    ensures r.Ok? ==> IsClosure(g, flow, r.value)
    ensures r.Err? ==> r.error != {} && forall k :: k in r.error ==> Dangling(g, flow, k)
  {
    var found: set<string> := {};
    var frontier := flow;
    StartWalking(g, flow);
    while frontier != {}
      invariant Walking(g, flow, found, frontier, {})
      decreases g.Keys - found, frontier
    {
      var missing := frontier - g.Keys;
      if missing != {} {
        var k :| k in missing;
        assert Dangling(g, flow, k);
        return Err(missing);
      }
      var found', next := WalkLevel(g, flow, frontier, found, {});
      if found' != found { FewerLeft(g, found, found'); }
      assert {} + (frontier - g.Keys) == {};
      found, frontier := found', next;
    }
    WalkedAll(g, flow, found, {});
    r := Ok(found);
  }

  lemma ElementsAppend<T>(a: seq<T>, b: seq<T>)
    ensures Elements(a + b) == Elements(a) + Elements(b)
  {}

  lemma ElementsTail<T>(s: seq<T>, i: nat)
    requires i < |s|
    ensures Elements(s[i..]) == {s[i]} + Elements(s[i + 1..])
  {
    assert s[i..] == [s[i]] + s[i + 1..];
  }

  /** Visits one key of a dataset scenario; `rest` are the keys of the level still to visit. */
  method VisitOne(g: Graph, ghost flow: set<string>, key: string, ghost rest: set<string>,
                  before: set<string>, facts: set<string>, reported: seq<string>, queued: seq<string>)
    returns (reachable: set<string>, produced: set<string>, errors: seq<string>, next: seq<string>)
    requires Walking(g, flow, before, {key} + rest + Elements(queued), Elements(reported))
    requires facts == FactsOfKeys(g, before)
    ensures Walking(g, flow, reachable, rest + Elements(next), Elements(errors))
    ensures produced == FactsOfKeys(g, reachable)
    ensures before <= reachable && (reachable == before ==> next == queued)
  {
    reachable, produced, errors, next := before, facts, reported, queued;
    ghost var pending := {key} + rest + Elements(queued);
    if key in before {
      SamePending(g, flow, before, pending, rest + Elements(queued), Elements(reported));
    } else if key !in g {
      errors := reported + [key];
      ElementsAppend(reported, [key]);
      SamePending(g, flow, before, pending, rest + Elements(queued), Elements(errors));
    } else {
      reachable, produced, next := before + {key}, facts + {g[key].factKey}, queued + g[key].followUps;
      ElementsAppend(queued, g[key].followUps);
      VisitKeepsWalking(g, flow, before, pending, Elements(reported), key);
      SamePending(g, flow, reachable, pending - {key} + Elements(g[key].followUps), rest + Elements(next),
        Elements(reported));
    }
  }

  /** One level of dataset validation. */
  method VisitLevel(g: Graph, ghost flow: set<string>, frontier: seq<string>,
                    before: set<string>, facts: set<string>, reported: seq<string>)
    returns (reachable: set<string>, produced: set<string>, errors: seq<string>, next: seq<string>)
    requires Walking(g, flow, before, Elements(frontier), Elements(reported))
    requires facts == FactsOfKeys(g, before)
    ensures Walking(g, flow, reachable, Elements(next), Elements(errors))
    ensures produced == FactsOfKeys(g, reachable)
    ensures before <= reachable && (reachable == before ==> next == [])
  {
    reachable, produced, errors, next := before, facts, reported, [];
    assert Elements(frontier[0..]) + Elements(next) == Elements(frontier);
    for i := 0 to |frontier|
      invariant Walking(g, flow, reachable, Elements(frontier[i..]) + Elements(next), Elements(errors))
      invariant produced == FactsOfKeys(g, reachable)
      invariant before <= reachable && (reachable == before ==> next == [])
    {
      ElementsTail(frontier, i);
      reachable, produced, errors, next :=
        VisitOne(g, flow, frontier[i], Elements(frontier[i + 1..]), reachable, produced, errors, next);
    }
    assert Elements(frontier[|frontier|..]) + Elements(next) == Elements(next);
  }

  /** Dataset validation: keys one by one, an error each time a missing key is met. */
  method DatasetWalk(g: Graph, flow: seq<string>)
    returns (reachable: set<string>, produced: set<string>, errors: seq<string>)
    ensures IsClosure(g, Elements(flow), reachable)
    ensures produced == FactsOfKeys(g, reachable)
    ensures IsDangling(g, Elements(flow), Elements(errors))
  {
    ghost var start := Elements(flow);
    reachable, produced, errors := {}, {}, [];
    var frontier := flow;
    StartWalking(g, start);
    assert Elements(errors) == {};
    while frontier != []
      invariant Walking(g, start, reachable, Elements(frontier), Elements(errors))
      invariant produced == FactsOfKeys(g, reachable)
      decreases g.Keys - reachable, |frontier|
    {
      ghost var before := reachable;
      reachable, produced, errors, frontier := VisitLevel(g, start, frontier, reachable, produced, errors);
      if reachable != before { FewerLeft(g, before, reachable); }
    }
    assert Elements(frontier) == {};
    WalkedAll(g, start, reachable, Elements(errors));
  }

  /** All keys a walk can ever meet. */
  function Universe(g: Graph, flow: set<string>): set<string> {
    flow + set k, b | k in g && b in g[k].followUps :: b
  }

  /** The state of the release gate's walk: what it visited, split into found and dangling keys. */
  ghost predicate Releasing(g: Graph, flow: set<string>, visited: set<string>, pending: set<string>) {
    Walking(g, flow, visited * g.Keys, pending, visited - g.Keys)
  }

  lemma ReleaseVisit(g: Graph, flow: set<string>, visited: set<string>, pending: set<string>, rest: set<string>,
                     key: string)
    requires Releasing(g, flow, visited, pending) && pending == {key} + rest
    ensures key in visited ==> Releasing(g, flow, visited, rest)
    ensures key !in g ==> Releasing(g, flow, visited + {key}, rest)
    ensures key in g ==> Releasing(g, flow, visited + {key}, rest + Elements(g[key].followUps))
  {
    var found, missing := visited * g.Keys, visited - g.Keys;
    if key in visited {
      SamePending(g, flow, found, pending, rest, missing);
    }
    if key in g {
      assert (visited + {key}) * g.Keys == found + {key} && (visited + {key}) - g.Keys == missing;
      VisitKeepsWalking(g, flow, found, pending, missing, key);
      SamePending(g, flow, found + {key}, pending - {key} + Elements(g[key].followUps),
        rest + Elements(g[key].followUps), missing);
    } else {
      assert (visited + {key}) * g.Keys == found && (visited + {key}) - g.Keys == missing + {key};
      SamePending(g, flow, found, pending, rest, missing + {key});
    }
  }

  lemma DistinctAppend<T>(s: seq<T>, x: T)
    requires Distinct(s) && x !in s
    ensures Distinct(s + [x])
  {}

  lemma FactsGrow(g: Graph, visited: set<string>, key: string)
    ensures FactsOfKeys(g, visited + {key}) == FactsOfKeys(g, visited) + if key in g then {g[key].factKey} else {}
  {}

  ghost predicate ReleaseState(g: Graph, flow: set<string>, visited: set<string>, queue: seq<string>,
                               facts: set<string>, issues: seq<string>)
  {
    && Releasing(g, flow, visited, Elements(queue))
    && visited + Elements(queue) <= Universe(g, flow)
    && facts == FactsOfKeys(g, visited)
    && Distinct(issues) && Elements(issues) == visited - g.Keys
  }

  /** Takes the first key off the queue: a known key is skipped, a missing one reported, an active one followed. */
  method ReleaseStep(g: Graph, ghost flow: set<string>, before: set<string>, waiting: seq<string>,
                     known: set<string>, reported: seq<string>)
    returns (visited: set<string>, queue: seq<string>, facts: set<string>, issues: seq<string>)
    requires waiting != [] && ReleaseState(g, flow, before, waiting, known, reported)
    ensures ReleaseState(g, flow, visited, queue, facts, issues)
    ensures if waiting[0] in before then visited == before && queue == waiting[1..]
            else visited == before + {waiting[0]}
  {
    var key := waiting[0];
    visited, queue, facts, issues := before, waiting[1..], known, reported;
    ElementsTail(waiting, 0);
    ReleaseVisit(g, flow, before, Elements(waiting), Elements(queue), key);
    if key in before { return; }
    visited := visited + {key};
    FactsGrow(g, before, key);
    if key !in g {
      ElementsAppend(issues, [key]);
      assert key !in Elements(issues);
      DistinctAppend(issues, key);
      assert visited - g.Keys == (before - g.Keys) + {key};
      issues := issues + [key];
    } else {
      ElementsAppend(queue, g[key].followUps);
      assert visited - g.Keys == before - g.Keys;
      facts := facts + {g[key].factKey};
      queue := queue + g[key].followUps;
    }
  }

  /** Release gate: a queue, where a missing key is visited too and reported once. */
  method ReleaseWalk(g: Graph, flow: seq<string>)
    returns (visited: set<string>, facts: set<string>, issues: seq<string>)
    ensures IsClosure(g, Elements(flow), visited * g.Keys)
    ensures facts == FactsOfKeys(g, visited)
    ensures IsDangling(g, Elements(flow), Elements(issues)) && Distinct(issues)
  {
    ghost var start, all := Elements(flow), Universe(g, Elements(flow));
    visited, facts, issues := {}, {}, [];
    var queue := flow;
    StartWalking(g, start);
    assert Elements(issues) == {} == visited * g.Keys == visited - g.Keys;
    while queue != []
      invariant ReleaseState(g, start, visited, queue, facts, issues)
      decreases all - visited, |queue|
    {
      ghost var before, key := visited, queue[0];
      ElementsTail(queue, 0);
      visited, queue, facts, issues := ReleaseStep(g, start, visited, queue, facts, issues);
      if key !in before {
        assert key in all - before && key !in all - visited;
      }
    }
    assert Elements(queue) == {};
    WalkedAll(g, start, visited * g.Keys, visited - g.Keys);
  }

  // ----- agreement

  /** What a walk reports is fixed by the graph and the flow, so on one snapshot all four walks agree. */
  lemma WalksAgree(g: Graph, flow: set<string>, s: set<string>, t: set<string>, m: set<string>, n: set<string>)
    requires IsClosure(g, flow, s) && IsClosure(g, flow, t)
    requires IsDangling(g, flow, m) && IsDangling(g, flow, n)
    ensures s == t && m == n && FactsOfKeys(g, s) == FactsOfKeys(g, t)
  {
    forall k ensures (k in s <==> k in t) && (k in m <==> k in n) {
      assert k in s <==> Reachable(g, flow, k);
      assert k in m <==> Dangling(g, flow, k);
    }
  }
}
