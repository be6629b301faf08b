/**
 * What an assessment runs on (src/modules/assessments/content.ts): the questions frozen when the scenario is
 * selected, their integrity check on every later turn, and the scenario and matrix loaded by version. Later work
 * of the administrators changes nothing for an assessment already under way.
 */
module PinnedContent {
  import opened Prelude
  import opened Sorting
  import opened Branching
  import opened RuleEngine
  import opened Scoring
  import opened Intake
  import opened IntakeRuns
  import Reachability
  import Versions

  // ----- the question snapshot

  datatype LibraryQuestion = LibraryQuestion(active: bool, body: Question)

  type QuestionLibrary = map<string, LibraryQuestion>

  function FollowUps(q: Question): seq<string> {
    if q.branch.Some? then q.branch.value.questionKeys else []
  }

  /** A branch without follow-ups is no branch. */
  function NormalizeQuestion(q: Question): Question {
    if q.branch.Some? && q.branch.value.questionKeys == [] then q.(branch := None) else q
  }

  /** Nothing is lost of a question but a branch that leads nowhere. */
  lemma NormalizeMeans(q: Question)
    ensures var n := NormalizeQuestion(q);
            && n.key == q.key && n.text == q.text && n.kind == q.kind && n.factKey == q.factKey
            && n.required == q.required && n.options == q.options
            && (forall b :: q.branch == Some(b) && b.questionKeys != [] ==> n.branch == q.branch)
            && (q.branch == None ==> n.branch == None)
            && (forall b :: q.branch == Some(b) && b.questionKeys == [] ==> n.branch == None)
  {}

  predicate ByKey(a: Question, b: Question) {
    TextLess(a.key, b.key)
  }

  function ActiveQuestions(lib: QuestionLibrary): Reachability.Graph {
    map k | k in lib && lib[k].active :: Reachability.Node(lib[k].body.factKey, FollowUps(lib[k].body))
  }

  ghost predicate Keyed(lib: QuestionLibrary) {
    forall k :: k in lib ==> lib[k].body.key == k
  }

  ghost predicate OnePerKey(qs: seq<Question>) {
    forall i, j :: 0 <= i < j < |qs| ==> qs[i].key != qs[j].key
  }

  /** The reachable active questions, each once, normalized and in key order. */
  ghost predicate IsSnapshot(lib: QuestionLibrary, flow: set<string>, qs: seq<Question>) {
    && OnePerKey(qs) && Sorted(ByKey, qs)
    && forall q ::
         q in qs
         <==> Reachability.Reachable(ActiveQuestions(lib), flow, q.key) && q == NormalizeQuestion(lib[q.key].body)
  }

  lemma ByKeyOrders()
    ensures StrictWeak(ByKey)
  {
    TextLessOrders();
  }

  lemma OnePerKeyIsTotal(qs: seq<Question>)
    requires OnePerKey(qs)
    ensures TotalOn(ByKey, qs)
  {
    forall x, y | x in qs && y in qs && x != y ensures ByKey(x, y) || ByKey(y, x) {
      var i :| 0 <= i < |qs| && qs[i] == x;
      var j :| 0 <= j < |qs| && qs[j] == y;
      assert x.key != y.key by { assert if i < j then qs[i].key != qs[j].key else qs[j].key != qs[i].key; }
      TextLessTotal(x.key, y.key);
    }
  }

  lemma {:induction false} SameElementsOnce(a: seq<Question>, b: seq<Question>)
    requires OnePerKey(a) && OnePerKey(b) && forall q :: q in a <==> q in b
    ensures multiset(a) == multiset(b)
  {
    forall q: Question ensures multiset(a)[q] == multiset(b)[q] {
      CountsOnce(a, q);
      CountsOnce(b, q);
    }
  }

  lemma {:induction false} CountsOnce(qs: seq<Question>, q: Question)
    requires OnePerKey(qs)
    ensures multiset(qs)[q] == if q in qs then 1 else 0
  {
    if qs != [] {
      CountsOnce(qs[1..], q);
      assert qs == [qs[0]] + qs[1..];
      forall j | 0 <= j < |qs[1..]| ensures qs[1..][j] != qs[0] {
        assert qs[0].key != qs[j + 1].key;
      }
    }
  }

  /** A snapshot is determined by the library and the flow, whatever order the database returned things in. */
  lemma SnapshotIsUnique(lib: QuestionLibrary, flow: set<string>, a: seq<Question>, b: seq<Question>)
    requires IsSnapshot(lib, flow, a) && IsSnapshot(lib, flow, b)
    ensures a == b
  {
    SameElementsOnce(a, b);
    OnePerKeyIsTotal(a);
    ByKeyOrders();
    SortedUnique(ByKey, a, b);
  }

  /** Collects the normalized questions of the keys found, in whatever order. */
  method Collect(lib: QuestionLibrary, found: set<string>) returns (qs: seq<Question>)
    requires Keyed(lib) && found <= lib.Keys
    ensures OnePerKey(qs)
    ensures forall q :: q in qs <==> q.key in found && q == NormalizeQuestion(lib[q.key].body)
  {
    qs := [];
    var left := found;
    while left != {}
      invariant left <= found && OnePerKey(qs)
      invariant forall q :: q in qs <==> q.key in found - left && q == NormalizeQuestion(lib[q.key].body)
      decreases left
    {
      var k :| k in left;
      var q := NormalizeQuestion(lib[k].body);
      assert q.key == k;
      forall x | x in qs ensures x.key != k { assert x.key in found - left; }
      qs, left := qs + [q], left - {k};
    }
  }

  /** Pinning refuses a scenario exactly when some link of its flow leads to no active question. */
  method PinQuestions(lib: QuestionLibrary, flow: seq<string>) returns (r: Result<seq<Question>, set<string>>)
    requires Keyed(lib)
    ensures r.Ok? <==> forall k :: !Reachability.Dangling(ActiveQuestions(lib), Elements(flow), k)
    ensures r.Ok? ==> IsSnapshot(lib, Elements(flow), r.value)
    ensures r.Err? ==> forall k :: k in r.error <==> Reachability.Dangling(ActiveQuestions(lib), Elements(flow), k)
  {
    var g := ActiveQuestions(lib);
    var found := Reachability.QuestionMap(g, Elements(flow));
    assert found <= lib.Keys;
    var collected := Collect(lib, found);
    var qs := Sort(ByKey, collected);
    ByKeyOrders();
    SortSorts(ByKey, collected);
    SameElements(qs, collected);
    SortedKeepsOnePerKey(collected);
    var referenced := Elements(flow) + set q, k | q in qs && k in FollowUps(q) :: k;
    var missing := referenced - found;
    MissingIsDangling(lib, Elements(flow), found, qs);
    if missing != {} {
      var k :| k in missing;
      assert Reachability.Dangling(g, Elements(flow), k);
      return Err(missing);
    }
    assert forall k :: !Reachability.Dangling(g, Elements(flow), k);
    r := Ok(qs);
  }

  lemma SortedKeepsOnePerKey(qs: seq<Question>)
    requires OnePerKey(qs)
    ensures OnePerKey(Sort(ByKey, qs))
  {
    var s := Sort(ByKey, qs);
    SameElements(s, qs);
    forall i, j | 0 <= i < j < |s| ensures s[i].key != s[j].key {
      CountsOnce(qs, s[i]);
      if s[i] == s[j] {
        TwiceCounted(s, i, j);
      }
      assert s[i] != s[j] && s[i] in s && s[j] in s;
      var a :| 0 <= a < |qs| && qs[a] == s[i];
      var b :| 0 <= b < |qs| && qs[b] == s[j];
      assert if a < b then qs[a].key != qs[b].key else qs[b].key != qs[a].key;
    }
  }

  lemma MissingIsDangling(lib: QuestionLibrary, flow: set<string>, found: set<string>, qs: seq<Question>)
    requires Keyed(lib) && Reachability.IsClosure(ActiveQuestions(lib), flow, found)
    requires forall q :: q in qs <==> q.key in found && q == NormalizeQuestion(lib[q.key].body)
    ensures var referenced := flow + set q, k | q in qs && k in FollowUps(q) :: k;
            forall k :: k in referenced - found <==> Reachability.Dangling(ActiveQuestions(lib), flow, k)
  {
    var g := ActiveQuestions(lib);
    var referenced := flow + set q, k | q in qs && k in FollowUps(q) :: k;
    forall k | k in found
      ensures NormalizeQuestion(lib[k].body) in qs && FollowUps(NormalizeQuestion(lib[k].body)) == g[k].followUps
    {
      assert Reachability.Reachable(g, flow, k);
      assert NormalizeQuestion(lib[k].body).key == k;
    }
    forall k | k in referenced - found ensures Reachability.Dangling(g, flow, k) {
      if k in flow {
        Reachability.FlowIsMentioned(g, flow, k);
      } else {
        var q :| q in qs && k in FollowUps(q);
        Reachability.FollowUpIsMentioned(g, flow, q.key, k);
      }
      assert !Reachability.Reachable(g, flow, k);
    }
    forall k | Reachability.Dangling(g, flow, k) ensures k in referenced - found {
      var path :| Reachability.IsPath(g, flow, path) && path[|path| - 1] == k;
      assert !Reachability.Reachable(g, flow, k);
      if |path| > 1 {
        var n := |path| - 1;
        assert Reachability.IsPath(g, flow, path[..n]) && path[..n][n - 1] == path[n - 1];
        assert Reachability.Reachable(g, flow, path[n - 1]) && path[n - 1] in found;
        assert k in FollowUps(NormalizeQuestion(lib[path[n - 1]].body));
      }
    }
  }

  // ----- restoring the snapshot

  datatype Integrity = NoSnapshot | Tampered

  /** Sorts the stored copy and compares its hash; the hash is any function of the sorted list. */
  function RestoreQuestions(raw: seq<Question>, expected: Option<string>, hash: seq<Question> -> string)
    : Result<seq<Question>, Integrity>
  {
    var qs := Sort(ByKey, seq(|raw|, i requires 0 <= i < |raw| => NormalizeQuestion(raw[i])));
    if expected.None? || qs == [] then Err(NoSnapshot)
    else if hash(qs) != expected.value then Err(Tampered)
    else Ok(qs)
  }

  lemma SnapshotIsNormal(lib: QuestionLibrary, flow: set<string>, pinned: seq<Question>, raw: seq<Question>)
    requires IsSnapshot(lib, flow, pinned) && forall q :: q in raw ==> q in pinned
    ensures seq(|raw|, i requires 0 <= i < |raw| => NormalizeQuestion(raw[i])) == raw
  {}

  lemma SortingRestoresOrder(pinned: seq<Question>, raw: seq<Question>)
    requires OnePerKey(pinned) && Sorted(ByKey, pinned) && multiset(raw) == multiset(pinned)
    ensures Sort(ByKey, raw) == pinned
  {
    ByKeyOrders();
    OnePerKeyIsTotal(pinned);
    SortSorts(ByKey, raw);
    SortedUnique(ByKey, pinned, Sort(ByKey, raw));
  }

  /** A snapshot comes back unchanged, in whatever order it was stored. */
  lemma RestoreGivesSnapshot(lib: QuestionLibrary, flow: set<string>, pinned: seq<Question>, raw: seq<Question>,
                             hash: seq<Question> -> string)
    requires IsSnapshot(lib, flow, pinned) && pinned != [] && multiset(raw) == multiset(pinned)
    ensures RestoreQuestions(raw, Some(hash(pinned)), hash) == Ok(pinned)
  {
    SameElements(raw, pinned);
    SnapshotIsNormal(lib, flow, pinned, raw);
    SortingRestoresOrder(pinned, raw);
  }

  // ----- the library over time

  datatype ScenarioBody = ScenarioBody(flow: seq<FlowNode>, required: seq<string>, actions: map<Classification, string>)

  datatype Library = Library(
    scenarios: Versions.Store<ScenarioBody>, matrices: Versions.Store<Matrix>,
    questions: QuestionLibrary, rules: seq<Rule>)

  /** Anything an administrator may do: version edits, question edits and retirements, any change to the rules. */
  datatype Administration =
    | EditScenario(edit: Versions.Edit<ScenarioBody>)
    | EditMatrix(matrixEdit: Versions.Edit<Matrix>)
    | ChangeQuestions(questions: QuestionLibrary)
    | ChangeRules(rules: seq<Rule>)

  function Administer(lib: Library, a: Administration): Library {
    match a
    case EditScenario(edit) => lib.(scenarios := Versions.After(lib.scenarios, edit))
    case EditMatrix(edit) => lib.(matrices := Versions.After(lib.matrices, edit))
    case ChangeQuestions(questions) => lib.(questions := questions)
    case ChangeRules(rules) => lib.(rules := rules)
  }

  /** What the assessment stores: two version pins and two embedded, hashed lists. */
  datatype PinRef = PinRef(
    scenario: nat, scenarioVersion: nat, matrix: nat, matrixVersion: nat,
    questions: seq<Question>, questionsHash: Option<string>, rules: seq<Rule>, rulesHash: Option<string>)

  datatype Hashes = Hashes(questions: seq<Question> -> string, rules: seq<Rule> -> string)

  predicate ById(a: Rule, b: Rule) {
    TextLess(a.id, b.id)
  }

  function RestoreRules(raw: seq<Rule>, expected: Option<string>,
                        hash: seq<Rule> -> string): Result<seq<Rule>, Integrity>
  {
    var rules := Sort(ById, raw);
    if expected.None? then Err(NoSnapshot)
    else if hash(rules) != expected.value then Err(Tampered)
    else Ok(rules)
  }

  function LoadVersion<C>(s: Versions.Store<C>, id: nat, number: nat): Option<C> {
    if id < |s| && s[id].number == number then Some(s[id].content) else None
  }

  /** Loads what the assessment runs on, as every turn does before anything else. */
  function Resolve(lib: Library, ref: PinRef, hashes: Hashes): Option<PinnedContent> {
    var scenario := LoadVersion(lib.scenarios, ref.scenario, ref.scenarioVersion);
    var matrix := LoadVersion(lib.matrices, ref.matrix, ref.matrixVersion);
    var questions := RestoreQuestions(ref.questions, ref.questionsHash, hashes.questions);
    var rules := RestoreRules(ref.rules, ref.rulesHash, hashes.rules);
    if scenario.None? || matrix.None? || questions.Err? || rules.Err? then None
    else Some(PinnedContent(scenario.value.flow, scenario.value.required, questions.value, matrix.value, rules.value,
                            scenario.value.actions))
  }

  /** The pinned scenario and matrix have left the draft status, as they must have to be selected. */
  predicate Released(lib: Library, ref: PinRef) {
    && ref.scenario < |lib.scenarios| && lib.scenarios[ref.scenario].status != Versions.Draft
    && ref.matrix < |lib.matrices| && lib.matrices[ref.matrix].status != Versions.Draft
  }

  lemma AdministrationKeepsPin(lib: Library, a: Administration, ref: PinRef, hashes: Hashes)
    requires Released(lib, ref)
    ensures Released(Administer(lib, a), ref)
    ensures Resolve(Administer(lib, a), ref, hashes) == Resolve(lib, ref, hashes)
  {
    match a
    case EditScenario(edit) => Versions.EditFreezes(lib.scenarios, edit, ref.scenario);
    case EditMatrix(edit) => Versions.EditFreezes(lib.matrices, edit, ref.matrix);
    case _ =>
  }

  // ----- pinning

  function FlowKeys(flow: seq<FlowNode>): seq<string> {
    InitialQueue(flow)
  }

  predicate Live<C>(s: Versions.Store<C>, id: nat) {
    id < |s| && s[id].isCurrent && s[id].status == Versions.Active
  }

  /** Every link of the flow leads to an active question. */
  ghost predicate NothingDangles(lib: Library, flow: seq<FlowNode>) {
    forall k :: !Reachability.Dangling(ActiveQuestions(lib.questions), Elements(FlowKeys(flow)), k)
  }

  /** `ref` is what selecting its scenario pins now. */
  ghost predicate PinnedFrom(lib: Library, ref: PinRef, hashes: Hashes) {
    && Live(lib.scenarios, ref.scenario) && ref.scenarioVersion == lib.scenarios[ref.scenario].number
    && Live(lib.matrices, ref.matrix) && ref.matrixVersion == lib.matrices[ref.matrix].number
    && NothingDangles(lib, lib.scenarios[ref.scenario].content.flow)
    && IsSnapshot(lib.questions, Elements(FlowKeys(lib.scenarios[ref.scenario].content.flow)), ref.questions)
    && ref.questionsHash == Some(hashes.questions(ref.questions))
    && ref.rules == Sort(ById, lib.rules) && ref.rulesHash == Some(hashes.rules(ref.rules))
  }

  datatype PinRefusal = MissingQuestions(keys: set<string>) | NoMatrix

  /** Freezes a live scenario with the matrix that applies, if there is one, and the active rules. */
  method PinVersions(lib: Library, scenario: nat, matrix: Option<nat>, hashes: Hashes)
    returns (r: Result<PinRef, PinRefusal>)
    requires Keyed(lib.questions) && Live(lib.scenarios, scenario)
             && (matrix.Some? ==> Live(lib.matrices, matrix.value))
    ensures r.Ok? <==> NothingDangles(lib, lib.scenarios[scenario].content.flow) && matrix.Some?
    ensures r.Ok? ==> PinnedFrom(lib, r.value, hashes) && r.value.scenario == scenario && Some(r.value.matrix) == matrix
    ensures r.Err? ==> (r.error.NoMatrix? <==> NothingDangles(lib, lib.scenarios[scenario].content.flow))
  {
    var pinned := PinQuestions(lib.questions, FlowKeys(lib.scenarios[scenario].content.flow));
    match pinned
    case Err(missing) => return Err(MissingQuestions(missing));
    case Ok(questions) =>
      if matrix.None? { return Err(NoMatrix); }
      var rules := Sort(ById, lib.rules);
      r := Ok(PinRef(scenario, lib.scenarios[scenario].number, matrix.value, lib.matrices[matrix.value].number,
                     questions, Some(hashes.questions(questions)), rules, Some(hashes.rules(rules))));
  }

  /** What an assessment pinned with `ref` runs on. */
  function ContentOf(lib: Library, ref: PinRef): PinnedContent
    requires ref.scenario < |lib.scenarios| && ref.matrix < |lib.matrices|
  {
    var scenario := lib.scenarios[ref.scenario].content;
    PinnedContent(scenario.flow, scenario.required, ref.questions, lib.matrices[ref.matrix].content, ref.rules,
      scenario.actions)
  }

  lemma ReachableIsPinned(lib: QuestionLibrary, flow: set<string>, qs: seq<Question>, k: string)
    requires Keyed(lib) && IsSnapshot(lib, flow, qs)
    requires Reachability.Mentioned(ActiveQuestions(lib), flow, k)
             && !Reachability.Dangling(ActiveQuestions(lib), flow, k)
    ensures k in KeysOf(qs)
  {
    var q := NormalizeQuestion(lib[k].body);
    assert q.key == k && Reachability.Reachable(ActiveQuestions(lib), flow, q.key);
    assert q in qs;
  }

  /** The pinned questions are closed: the flow and every follow-up find theirs. */
  lemma SnapshotIsClosed(lib: QuestionLibrary, flow: seq<FlowNode>, qs: seq<Question>)
    requires Keyed(lib) && IsSnapshot(lib, Elements(FlowKeys(flow)), qs)
    requires forall k :: !Reachability.Dangling(ActiveQuestions(lib), Elements(FlowKeys(flow)), k)
    ensures forall n :: n in flow ==> n.questionKey in KeysOf(qs)
    ensures forall q, k :: q in qs && q.branch.Some? && k in q.branch.value.questionKeys ==> k in KeysOf(qs)
  {
    var g, keys := ActiveQuestions(lib), Elements(FlowKeys(flow));
    forall n | n in flow ensures n.questionKey in KeysOf(qs) {
      var i :| 0 <= i < |flow| && flow[i] == n;
      assert FlowKeys(flow)[i] == n.questionKey;
      Reachability.FlowIsMentioned(g, keys, n.questionKey);
      ReachableIsPinned(lib, keys, qs, n.questionKey);
    }
    forall q, k | q in qs && q.branch.Some? && k in q.branch.value.questionKeys ensures k in KeysOf(qs) {
      assert k in g[q.key].followUps;
      Reachability.FollowUpIsMentioned(g, keys, q.key, k);
      ReachableIsPinned(lib, keys, qs, k);
    }
  }

  ghost predicate DistinctIds(rules: seq<Rule>) {
    forall i, j :: 0 <= i < j < |rules| ==> rules[i].id != rules[j].id
  }

  lemma DistinctIdsAreTotal(rules: seq<Rule>)
    requires DistinctIds(rules)
    ensures TotalOn(ById, rules)
  {
    forall x, y | x in rules && y in rules && x != y ensures ById(x, y) || ById(y, x) {
      var i :| 0 <= i < |rules| && rules[i] == x;
      var j :| 0 <= j < |rules| && rules[j] == y;
      assert x.id != y.id by { assert if i < j then rules[i].id != rules[j].id else rules[j].id != rules[i].id; }
      TextLessTotal(x.id, y.id);
    }
  }

  lemma ByIdOrders()
    ensures StrictWeak(ById)
  {
    TextLessOrders();
  }

  lemma RulesSortOnce(rules: seq<Rule>)
    requires DistinctIds(rules)
    ensures Sort(ById, Sort(ById, rules)) == Sort(ById, rules)
  {
    ByIdOrders();
    DistinctIdsAreTotal(rules);
    SortCanonical(ById, rules, rules);
  }

  lemma PinIsValid(lib: Library, ref: PinRef, hashes: Hashes)
    requires Keyed(lib.questions) && PinnedFrom(lib, ref, hashes) && ValidMatrix(lib.matrices[ref.matrix].content)
    ensures ValidPin(ContentOf(lib, ref))
  {
    SnapshotIsClosed(lib.questions, lib.scenarios[ref.scenario].content.flow, ref.questions);
  }

  lemma PinnedQuestionsRestore(lib: Library, ref: PinRef, hashes: Hashes)
    requires PinnedFrom(lib, ref, hashes)
    ensures RestoreQuestions(ref.questions, ref.questionsHash, hashes.questions)
            == if ref.questions == [] then Err(NoSnapshot) else Ok(ref.questions)
  {
    SnapshotIsNormal(lib.questions, Elements(FlowKeys(lib.scenarios[ref.scenario].content.flow)), ref.questions,
      ref.questions);
    SortingRestoresOrder(ref.questions, ref.questions);
  }

  lemma PinnedRulesRestore(lib: Library, ref: PinRef, hashes: Hashes)
    requires DistinctIds(lib.rules) && PinnedFrom(lib, ref, hashes)
    ensures RestoreRules(ref.rules, ref.rulesHash, hashes.rules) == Ok(ref.rules)
  {
    RulesSortOnce(lib.rules);
  }

  /**
   * What pinning wrote is what every later turn reads: the live scenario and matrix, the snapshot, the sorted rules.
   */
  lemma PinResolves(lib: Library, ref: PinRef, hashes: Hashes)
    requires Keyed(lib.questions) && DistinctIds(lib.rules) && PinnedFrom(lib, ref, hashes)
    ensures Released(lib, ref)
    ensures Resolve(lib, ref, hashes) == if ref.questions == [] then None else Some(ContentOf(lib, ref))
  {
    PinnedQuestionsRestore(lib, ref, hashes);
    PinnedRulesRestore(lib, ref, hashes);
  }

  /** What is pinned, field by field: questions ascend by key and rules by id, and none of the rules is lost. */
  lemma PinMeans(lib: Library, ref: PinRef, hashes: Hashes)
    requires PinnedFrom(lib, ref, hashes)
    ensures forall i, j :: 0 <= i < j < |ref.questions| ==> !TextLess(ref.questions[j].key, ref.questions[i].key)
    ensures forall i, j :: 0 <= i < j < |ref.rules| ==> !TextLess(ref.rules[j].id, ref.rules[i].id)
    ensures multiset(ref.rules) == multiset(lib.rules)
    ensures ref.scenario < |lib.scenarios| && lib.scenarios[ref.scenario].status == Versions.Active
    ensures ref.matrix < |lib.matrices| && lib.matrices[ref.matrix].status == Versions.Active
    ensures ref.scenarioVersion == lib.scenarios[ref.scenario].number
            && ref.matrixVersion == lib.matrices[ref.matrix].number
  {
    TextLessOrders();
    assert StrictWeak(ById);
    SortSorts(ById, lib.rules);
  }

  /** Each administrator's step changes one collection, and only as it says. */
  lemma AdministerMeans(lib: Library, a: Administration)
    ensures var t := Administer(lib, a);
            match a
            case EditScenario(edit) =>
              t == lib.(scenarios := t.scenarios) && t.scenarios == Versions.After(lib.scenarios, edit)
            case EditMatrix(edit) =>
              t == lib.(matrices := t.matrices) && t.matrices == Versions.After(lib.matrices, edit)
            case ChangeQuestions(questions) => t == lib.(questions := t.questions) && t.questions == questions
            case ChangeRules(rules) => t == lib.(rules := t.rules) && t.rules == rules
  {}

  // ----- runs with administrators at work

  datatype WorldStep = Admin(administration: Administration) | Turn(call: Call)

  datatype World = World(library: Library, history: History)

  /** A turn resolves the pin against the library of the moment; a pin that does not resolve refuses the turn. */
  ghost function WorldApply(co: Coercions, ref: PinRef, hashes: Hashes, w: World, step: WorldStep): World {
    match step
    case Admin(a) => World(Administer(w.library, a), w.history)
    case Turn(call) =>
      var content := Resolve(w.library, ref, hashes);
      if content.None? || !ValidPin(content.value) then w
      else
        var pin: Pin := content.value;
        World(w.library, Serve(co, w.history.(doc := w.history.doc.(pin := Some(pin))), call))
  }

  ghost function WorldRun(co: Coercions, ref: PinRef, hashes: Hashes, w: World, steps: seq<WorldStep>): World {
    if steps == [] then w
    else WorldApply(co, ref, hashes, WorldRun(co, ref, hashes, w, steps[..|steps| - 1]), steps[|steps| - 1])
  }

  function Turns(steps: seq<WorldStep>): seq<Call> {
    if steps == [] then []
    else
      var last := steps[|steps| - 1];
      Turns(steps[..|steps| - 1]) + if last.Turn? then [last.call] else []
  }

  predicate UnderWay(d: Doc) {
    d.phase.QuestionsPhase? || d.phase.DonePhase?
  }

  /** Once the questions have begun, no operation changes the pin or goes back to choosing one. */
  lemma PinStays(co: Coercions, h: History, call: Call)
    requires UnderWay(h.doc)
    ensures var d := Serve(co, h, call).doc; d.pin == h.doc.pin && UnderWay(d)
  {}

  /** The questions have begun, and the library still gives the assessment the content it was pinned with. */
  ghost predicate Steady(w: World, ref: PinRef, hashes: Hashes, pin: Pin) {
    && UnderWay(w.history.doc) && w.history.doc.pin == Some(pin)
    && Released(w.library, ref) && Resolve(w.library, ref, hashes) == Some(pin)
  }

  lemma AdminStep(co: Coercions, ref: PinRef, hashes: Hashes, w: World, a: Administration, pin: Pin)
    requires Steady(w, ref, hashes, pin)
    ensures var w' := WorldApply(co, ref, hashes, w, Admin(a)); Steady(w', ref, hashes, pin) && w'.history == w.history
  {
    AdministrationKeepsPin(w.library, a, ref, hashes);
  }

  lemma TurnStep(co: Coercions, ref: PinRef, hashes: Hashes, w: World, call: Call, pin: Pin)
    requires Steady(w, ref, hashes, pin)
    ensures var w' := WorldApply(co, ref, hashes, w, Turn(call));
            Steady(w', ref, hashes, pin) && w'.history == Serve(co, w.history, call)
  {
    assert w.history.(doc := w.history.doc.(pin := Some(pin))) == w.history;
    PinStays(co, w.history, call);
  }

  lemma TurnsAppend(steps: seq<WorldStep>, step: WorldStep)
    ensures Turns(steps + [step]) == Turns(steps) + if step.Turn? then [step.call] else []
  {}

  lemma RunAppend(co: Coercions, h: History, calls: seq<Call>, call: Call)
    ensures IntakeRuns.Run(co, h, calls + [call]) == Serve(co, IntakeRuns.Run(co, h, calls), call)
  {}

  /** The administrators' steps can be erased: the assessment ends exactly as it would have without them. */
  lemma {:induction false} AdministratorsAreInvisible(co: Coercions, ref: PinRef, hashes: Hashes, w: World,
                                                      steps: seq<WorldStep>, pin: Pin)
    requires Steady(w, ref, hashes, pin)
    ensures var after := WorldRun(co, ref, hashes, w, steps);
            Steady(after, ref, hashes, pin) && after.history == IntakeRuns.Run(co, w.history, Turns(steps))
  {
    if steps != [] {
      var n := |steps| - 1;
      var rest, last := steps[..n], steps[n];
      AdministratorsAreInvisible(co, ref, hashes, w, rest, pin);
      assert steps == rest + [last];
      TurnsAppend(rest, last);
      var before := WorldRun(co, ref, hashes, w, rest);
      match last
      case Admin(a) =>
        AdminStep(co, ref, hashes, before, a, pin);
        assert Turns(rest) + [] == Turns(rest);
      case Turn(call) =>
        TurnStep(co, ref, hashes, before, call, pin);
        RunAppend(co, w.history, Turns(rest), call);
    }
  }

  // ----- from the moment of selection

  /** The selection carries the content that `ref` pins from the library. */
  ghost predicate Carries(lib: Library, ref: PinRef, hashes: Hashes, sel: Selection) {
    && Keyed(lib.questions) && DistinctIds(lib.rules) && PinnedFrom(lib, ref, hashes)
    && sel.pin == ContentOf(lib, ref)
  }

  ghost predicate Selects(lib: Library, ref: PinRef, hashes: Hashes, op: Op) {
    (op.DoSetPersona? || op.DoDescribe?) && op.sel.Some? && Carries(lib, ref, hashes, op.sel.value)
  }

  /** A description always selects; the choice of a persona does when there is a text already. */
  predicate MaySelect(d: Doc, op: Op) {
    op.DoDescribe? || HasText(d.openingText)
  }

  lemma SelectionSetsOff(co: Coercions, full: bool, h: History, op: Op)
    requires Idle(h) && (op.DoSetPersona? || op.DoDescribe?) && op.sel.Some? && MaySelect(h.doc, op)
    requires Perform(co, full, h.doc, op).Ok?
    ensures SetOff(IntakeRuns.Apply(co, full, h, op), op.sel.value.pin) && op.sel.value.pin.questions != []
  {
    var sel := op.sel.value;
    var e := if op.DoDescribe? then h.doc.(openingText := Some(op.text))
             else h.doc.(personaKey := Some(op.personaKey), personaSource := Some(ByUser));
    BeginStartsQuestions(co, h.(doc := e), sel);
    LogIsFreeHere(h.(doc := Begin(co, e, sel).value.doc), IntakeRuns.Apply(co, full, h, op), sel.pin);
  }

  /** A selection that gets the assessment under way leaves it steady, and any other one leaves it stalled. */
  lemma SelectionIsSteady(co: Coercions, lib: Library, ref: PinRef, hashes: Hashes, h: History, call: Call)
    requires Idle(h) && Selects(lib, ref, hashes, call.op) && MaySelect(h.doc, call.op)
    requires Perform(co, call.full, h.doc, call.op).Ok?
    ensures var after := Serve(co, h, call); var pin := call.op.sel.value.pin;
            if Stalls(pin) then Stalled(after) else Steady(World(lib, after), ref, hashes, pin)
  {
    PinResolves(lib, ref, hashes);
    SelectionSetsOff(co, call.full, h, call.op);
  }

  /** The same for an assessment started with a persona and a text. */
  lemma LaunchIsSteady(co: Coercions, full: bool, lib: Library, ref: PinRef, hashes: Hashes, o: Opening)
    requires o.chosen.Some? && HasText(o.text) && o.sel.Some? && Carries(lib, ref, hashes, o.sel.value)
    requires Launch(co, full, o).Ok?
    ensures var h := Launched(Launch(co, full, o).value); var pin := o.sel.value.pin;
            if Stalls(pin) then Stalled(h) else Steady(World(lib, h), ref, hashes, pin)
  {
    var e := NewDoc.(openingText := o.text, personaKey := o.chosen, personaSource := Some(ByUser));
    PinResolves(lib, ref, hashes);
    BeginStartsQuestions(co, History(e, [], []), o.sel.value);
    LogIsFreeHere(History(Begin(co, e, o.sel.value).value.doc, [], []), Launched(Launch(co, full, o).value),
      o.sel.value.pin);
  }

  /**
   * Two assessments that stand alike, select the same content from their libraries and then take the same turns end
   * alike, whatever the administrators do to either library from the moment of selection on.
   */
  lemma SamePinSameRun(co: Coercions, hashes: Hashes, h: History, call: Call, lib: Library, ref: PinRef,
                       steps: seq<WorldStep>, lib': Library, ref': PinRef, steps': seq<WorldStep>)
    requires Idle(h) && MaySelect(h.doc, call.op) && Perform(co, call.full, h.doc, call.op).Ok?
    requires Selects(lib, ref, hashes, call.op) && Selects(lib', ref', hashes, call.op)
    requires !Stalls(call.op.sel.value.pin) && Turns(steps) == Turns(steps')
    ensures var after := Serve(co, h, call);
            && WorldRun(co, ref, hashes, World(lib, after), steps).history == IntakeRuns.Run(co, after, Turns(steps))
            && WorldRun(co, ref', hashes, World(lib', after), steps').history == IntakeRuns.Run(co, after, Turns(steps))
  {
    var after, pin := Serve(co, h, call), call.op.sel.value.pin;
    SelectionIsSteady(co, lib, ref, hashes, h, call);
    SelectionIsSteady(co, lib', ref', hashes, h, call);
    AdministratorsAreInvisible(co, ref, hashes, World(lib, after), steps, pin);
    AdministratorsAreInvisible(co, ref', hashes, World(lib', after), steps', pin);
  }
}
