/**
 * Dataset validation against activation (src/modules/datasets/service.ts, src/modules/scenarios/service.ts).
 * `CrossValidate` promises that a validated dataset activates. It does, except in three families: a question row
 * without a branch trigger updates a stored question that has one, and the stored trigger stays; an open draft stands
 * in the way of a persona or a scenario; a scenario row names another persona than the stored scenario.
 */
module Datasets {
  import opened Prelude
  import opened Reachability
  import V = Versions

  datatype PersonaBody = PersonaBody(sector: string)

  datatype ScenarioBody = ScenarioBody(personaKey: string, flow: seq<string>, required: seq<string>)

  /** A stored question of any status. */
  datatype Stored = Stored(active: bool, factKey: string, followUps: seq<string>, sectors: seq<string>)

  /** A tenant's content, and the sectors configured for it. */
  datatype Library = Library(
    sectors: set<string>,
    personas: V.Store<PersonaBody>,
    questions: map<string, Stored>,
    scenarios: V.Store<ScenarioBody>)

  datatype PersonaRow = PersonaRow(key: string, body: PersonaBody, defaultScenario: Option<string>)

  /** A question row; a branch trigger, when there is one, names at least one follow-up. */
  datatype Row = Row(
    key: string, factKey: string, trigger: Option<seq<string>>,
    sectors: seq<string>, personaKeys: seq<string>, scenarioKeys: seq<string>)

  datatype ScenarioRow = ScenarioRow(key: string, body: ScenarioBody)

  /** `sheetErrors` is what the scoring sheet's parsers complain of. */
  datatype Dataset =
    Dataset(personas: seq<PersonaRow>, questions: seq<Row>, scenarios: seq<ScenarioRow>, sheetErrors: seq<string>)

  function Active(questions: map<string, Stored>): Graph {
    map k | k in questions && questions[k].active :: Node(questions[k].factKey, questions[k].followUps)
  }

  function RowNode(r: Row): Node {
    Node(r.factKey, if r.trigger.Some? then r.trigger.value else [])
  }

  function RowsGraph(rows: seq<Row>): Graph {
    if rows == [] then map[] else RowsGraph(rows[..|rows| - 1])[rows[|rows| - 1].key := RowNode(rows[|rows| - 1])]
  }

  /** What the validation looks questions up in: the file first, then the active questions of the tenant. */
  function Merged(lib: Library, ds: Dataset): Graph {
    Active(lib.questions) + RowsGraph(ds.questions)
  }

  predicate InFile(rows: seq<PersonaRow>, key: string) {
    exists r :: r in rows && r.key == key
  }

  predicate ScenarioInFile(rows: seq<ScenarioRow>, key: string) {
    exists r :: r in rows && r.key == key
  }

  predicate KnownPersona(lib: Library, ds: Dataset, key: string) {
    InFile(ds.personas, key) || V.CurrentKey(lib.personas, key)
  }

  predicate KnownScenario(lib: Library, ds: Dataset, key: string) {
    ScenarioInFile(ds.scenarios, key) || V.CurrentKey(lib.scenarios, key)
  }

  // ----- validation

  datatype RowError = UnknownSector(sector: string) | UnknownScenario(key: string)
                    | UnknownFollowUp(row: string, key: string) | UnknownPersona(key: string) | EmptyFlow
                    | UnknownQuestion(key: string) | Uncovered(fact: string) | BadSheet(message: string)

  predicate AcceptsPersona(lib: Library, ds: Dataset, p: PersonaRow) {
    && p.body.sector in lib.sectors
    && (p.defaultScenario.Some? && p.defaultScenario.value != "" ==> KnownScenario(lib, ds, p.defaultScenario.value))
  }

  predicate AcceptsTags(lib: Library, ds: Dataset, r: Row) {
    && (forall x :: x in r.sectors ==> x in lib.sectors)
    && (forall k :: k in r.personaKeys ==> KnownPersona(lib, ds, k))
    && (forall k :: k in r.scenarioKeys ==> KnownScenario(lib, ds, k))
  }

  /** `known` says whether the scenario's persona can be found. */
  ghost predicate AcceptsFlow(g: Graph, known: bool, s: ScenarioBody) {
    && known && s.flow != []
    && (forall k :: !Dangling(g, Elements(s.flow), k))
    && forall f :: f in s.required ==> exists k :: Reachable(g, Elements(s.flow), k) && g[k].factKey == f
  }

  ghost predicate TriggersResolve(g: Graph, rows: seq<Row>) {
    forall r, b :: r in rows && r.trigger.Some? && b in r.trigger.value ==> b in g
  }

  ghost predicate Accepts(lib: Library, ds: Dataset) {
    var g := Merged(lib, ds);
    && (forall p :: p in ds.personas ==> AcceptsPersona(lib, ds, p))
    && (forall r :: r in ds.questions ==> AcceptsTags(lib, ds, r))
    && TriggersResolve(g, ds.questions)
    && (forall s :: s in ds.scenarios ==> AcceptsFlow(g, KnownPersona(lib, ds, s.body.personaKey), s.body))
    && ds.sheetErrors == []
  }

  method CheckPersonas(lib: Library, ds: Dataset) returns (errors: seq<RowError>)
    ensures errors == [] <==> forall p :: p in ds.personas ==> AcceptsPersona(lib, ds, p)
  {
    errors := [];
    var rows := ds.personas;
    for i := 0 to |rows|
      invariant errors == [] <==> forall p :: p in rows[..i] ==> AcceptsPersona(lib, ds, p)
    {
      var p := rows[i];
      assert rows[..i + 1] == rows[..i] + [p];
      var own: seq<RowError> := if p.body.sector in lib.sectors then [] else [UnknownSector(p.body.sector)];
      if p.defaultScenario.Some? && p.defaultScenario.value != "" && !KnownScenario(lib, ds, p.defaultScenario.value) {
        own := own + [UnknownScenario(p.defaultScenario.value)];
      }
      assert own == [] <==> AcceptsPersona(lib, ds, p);
      errors := errors + own;
    }
    assert rows[..|rows|] == rows;
  }

  /** One error for each name that is not known. */
  function Unknown(names: seq<string>, known: string -> bool, error: string -> RowError): (errors: seq<RowError>)
    ensures errors == [] <==> forall x :: x in names ==> known(x)
  {
    if names == [] then []
    else
      assert names == [names[0]] + names[1..];
      (if known(names[0]) then [] else [error(names[0])]) + Unknown(names[1..], known, error)
  }

  method CheckTags(lib: Library, ds: Dataset) returns (errors: seq<RowError>)
    ensures errors == [] <==> forall r :: r in ds.questions ==> AcceptsTags(lib, ds, r)
  {
    errors := [];
    var rows := ds.questions;
    for i := 0 to |rows|
      invariant errors == [] <==> forall r :: r in rows[..i] ==> AcceptsTags(lib, ds, r)
    {
      var r := rows[i];
      assert rows[..i + 1] == rows[..i] + [r];
      var own := Unknown(r.sectors, (x: string) => x in lib.sectors, (x: string) => UnknownSector(x))
                 + Unknown(r.personaKeys, (k: string) => KnownPersona(lib, ds, k), (k: string) => UnknownPersona(k))
                 + Unknown(r.scenarioKeys, (k: string) => KnownScenario(lib, ds, k), (k: string) => UnknownScenario(k));
      assert own == [] <==> AcceptsTags(lib, ds, r);
      errors := errors + own;
    }
    assert rows[..|rows|] == rows;
  }

  method CheckTriggers(g: Graph, rows: seq<Row>) returns (errors: seq<RowError>)
    ensures errors == [] <==> TriggersResolve(g, rows)
  {
    errors := [];
    for i := 0 to |rows|
      invariant errors == [] <==> TriggersResolve(g, rows[..i])
    {
      var links := RowNode(rows[i]).followUps;
      assert rows[..i + 1] == rows[..i] + [rows[i]];
      for j := 0 to |links|
        invariant errors == [] <==>
                    && TriggersResolve(g, rows[..i])
                    && (forall m | 0 <= m < j :: links[m] in g)
      {
        if links[j] !in g {
          errors := errors + [UnknownFollowUp(rows[i].key, links[j])];
        }
      }
    }
    assert rows[..|rows|] == rows;
  }

  lemma ProducedByReachable(g: Graph, flow: set<string>, reachable: set<string>)
    requires IsClosure(g, flow, reachable)
    ensures forall f :: f in FactsOfKeys(g, reachable) <==> exists k :: Reachable(g, flow, k) && g[k].factKey == f
  {}

  method CheckScenario(g: Graph, known: bool, s: ScenarioBody) returns (errors: seq<RowError>)
    ensures errors == [] <==> AcceptsFlow(g, known, s)
  {
    errors := [];
    if !known { errors := errors + [UnknownPersona(s.personaKey)]; }
    if s.flow == [] { errors := errors + [EmptyFlow]; }
    var reachable, produced, missing := DatasetWalk(g, s.flow);
    errors := errors + seq(|missing|, i requires 0 <= i < |missing| => UnknownQuestion(missing[i]));
    assert missing == [] <==> forall k :: !Dangling(g, Elements(s.flow), k) by {
      if missing != [] {
        assert missing[0] in Elements(missing);
      } else {
        forall k ensures !Dangling(g, Elements(s.flow), k) { assert k !in Elements(missing); }
      }
    }
    ghost var before := errors;
    for i := 0 to |s.required|
      invariant errors == [] <==> before == [] && forall f :: f in s.required[..i] ==> f in produced
    {
      assert s.required[..i + 1] == s.required[..i] + [s.required[i]];
      if s.required[i] !in produced { errors := errors + [Uncovered(s.required[i])]; }
    }
    assert s.required[..|s.required|] == s.required;
    ProducedByReachable(g, Elements(s.flow), reachable);
  }

  method CheckScenarios(lib: Library, ds: Dataset) returns (errors: seq<RowError>)
    ensures errors == []
            <==> forall s :: s in ds.scenarios
                             ==> AcceptsFlow(Merged(lib, ds), KnownPersona(lib, ds, s.body.personaKey), s.body)
  {
    var g, rows := Merged(lib, ds), ds.scenarios;
    errors := [];
    for i := 0 to |rows|
      invariant errors == []
                <==> forall s :: s in rows[..i] ==> AcceptsFlow(g, KnownPersona(lib, ds, s.body.personaKey), s.body)
    {
      assert rows[..i + 1] == rows[..i] + [rows[i]];
      var more := CheckScenario(g, KnownPersona(lib, ds, rows[i].body.personaKey), rows[i].body);
      errors := errors + more;
    }
    assert rows[..|rows|] == rows;
  }

  /** Every check of the upload that needs the tenant's content. */
  method CrossValidate(lib: Library, ds: Dataset) returns (errors: seq<RowError>)
    ensures errors == [] <==> Accepts(lib, ds)
  {
    var personas := CheckPersonas(lib, ds);
    var tags := CheckTags(lib, ds);
    var triggers := CheckTriggers(Merged(lib, ds), ds.questions);
    var scenarios := CheckScenarios(lib, ds);
    errors := personas + tags + triggers + scenarios
              + seq(|ds.sheetErrors|, i requires 0 <= i < |ds.sheetErrors| => BadSheet(ds.sheetErrors[i]));
  }

  // ----- applying a dataset

  /** The guard on every write that names sectors; an empty name is no name. */
  predicate GuardPasses(sectors: set<string>, requested: seq<string>) {
    forall x :: x in requested ==> Configured(sectors, x)
  }

  predicate Configured(sectors: set<string>, sector: string) {
    sector == "" || sector in sectors
  }

  function ApplyPersonas(lib: Library, rows: seq<PersonaRow>): Option<V.Store<PersonaBody>> {
    if rows == [] then Some(lib.personas)
    else
      var row := rows[|rows| - 1];
      match ApplyPersonas(lib, rows[..|rows| - 1])
      case None => None
      case Some(store) =>
        if !GuardPasses(lib.sectors, [row.body.sector]) then None
        else
          match V.Publish(store, row.key, row.body, true)
          case Err(_) => None
          case Ok(next) => Some(next)
  }

  /** What a row makes of the question of its key: a field the row lacks keeps its stored value. */
  function RowStored(questions: map<string, Stored>, r: Row): Stored {
    var kept := if r.key in questions then questions[r.key].followUps else [];
    Stored(true, r.factKey, if r.trigger.Some? then r.trigger.value else kept, r.sectors)
  }

  /** An existing question is reactivated and patched, a new one created. */
  function ApplyRow(questions: map<string, Stored>, r: Row): map<string, Stored> {
    questions[r.key := RowStored(questions, r)]
  }

  function ApplyRows(questions: map<string, Stored>, rows: seq<Row>): map<string, Stored> {
    if rows == [] then questions else ApplyRow(ApplyRows(questions, rows[..|rows| - 1]), rows[|rows| - 1])
  }

  function ApplyQuestions(lib: Library, rows: seq<Row>): Option<map<string, Stored>> {
    if rows == [] then Some(lib.questions)
    else
      match ApplyQuestions(lib, rows[..|rows| - 1])
      case None => None
      case Some(questions) =>
        if !GuardPasses(lib.sectors, rows[|rows| - 1].sectors) then None
        else Some(ApplyRow(questions, rows[|rows| - 1]))
  }

  ghost predicate Activates(lib: Library, s: ScenarioBody) {
    AcceptsFlow(Active(lib.questions), V.CurrentKey(lib.personas, s.personaKey), s)
  }

  /** A stored scenario keeps its persona; a new one needs a persona of any status. */
  predicate PersonaFits(lib: Library, scenarios: V.Store<ScenarioBody>, row: ScenarioRow) {
    var current := V.CurrentWithKey(scenarios, row.key);
    if current.Some? then scenarios[current.value].content.personaKey == row.body.personaKey
    else V.HasKey(lib.personas, row.body.personaKey)
  }

  /** The scenarios are applied to what `lib` has become by then. */
  ghost function ApplyScenarios(lib: Library, rows: seq<ScenarioRow>): Option<V.Store<ScenarioBody>> {
    if rows == [] then Some(lib.scenarios)
    else
      var row := rows[|rows| - 1];
      match ApplyScenarios(lib, rows[..|rows| - 1])
      case None => None
      case Some(store) =>
        if !PersonaFits(lib, store, row) then None
        else
          match V.Publish(store, row.key, row.body, Activates(lib, row.body))
          case Err(_) => None
          case Ok(next) => Some(next)
  }

  /** The library once the personas and the questions are in. */
  function Prepared(lib: Library, ds: Dataset): Option<Library> {
    match (ApplyPersonas(lib, ds.personas), ApplyQuestions(lib, ds.questions))
    case (Some(personas), Some(questions)) => Some(lib.(personas := personas, questions := questions))
    case _ => None
  }

  /** All of the content, or none of it. */
  ghost function Applied(lib: Library, ds: Dataset): Option<Library> {
    match Prepared(lib, ds)
    case None => None
    case Some(ready) =>
      match ApplyScenarios(ready, ds.scenarios)
      case None => None
      case Some(scenarios) => Some(ready.(scenarios := scenarios))
  }

  datatype Refusal = NoPersona | NoQuestions | MissingQuestions(missing: set<string>) | UncoveredFacts

  method ValidateForActivation(lib: Library, s: ScenarioBody) returns (refusal: Option<Refusal>)
    ensures refusal.None? <==> Activates(lib, s)
  {
    if !V.CurrentKey(lib.personas, s.personaKey) { return Some(NoPersona); }
    if s.flow == [] { return Some(NoQuestions); }
    var g := Active(lib.questions);
    var walk := ActivationWalk(g, Elements(s.flow));
    if walk.Err? {
      var k :| k in walk.error;
      assert Dangling(g, Elements(s.flow), k);
      return Some(MissingQuestions(walk.error));
    }
    var produced := FactsOfKeys(g, walk.value);
    ProducedByReachable(g, Elements(s.flow), walk.value);
    if exists f :: f in s.required && f !in produced { return Some(UncoveredFacts); }
    refusal := None;
  }

  method InstallPersonas(lib: Library, rows: seq<PersonaRow>) returns (personas: Option<V.Store<PersonaBody>>)
    ensures personas == ApplyPersonas(lib, rows)
  {
    var store := lib.personas;
    for i := 0 to |rows|
      invariant ApplyPersonas(lib, rows[..i]) == Some(store)
    {
      assert rows[..i + 1][..i] == rows[..i];
      var row := rows[i];
      var change := V.Publish(store, row.key, row.body, true);
      if !GuardPasses(lib.sectors, [row.body.sector]) || change.Err? {
        PersonasStayRefused(lib, rows, i + 1);
        return None;
      }
      store := change.value;
    }
    assert rows[..|rows|] == rows;
    personas := Some(store);
  }

  lemma {:induction false} PersonasStayRefused(lib: Library, rows: seq<PersonaRow>, n: nat)
    requires n <= |rows| && ApplyPersonas(lib, rows[..n]).None?
    ensures ApplyPersonas(lib, rows).None?
  {
    if n == |rows| {
      assert rows[..n] == rows;
    } else {
      assert rows[..|rows| - 1][..n] == rows[..n];
      PersonasStayRefused(lib, rows[..|rows| - 1], n);
    }
  }

  method InstallQuestions(lib: Library, rows: seq<Row>) returns (questions: Option<map<string, Stored>>)
    ensures questions == ApplyQuestions(lib, rows)
  {
    var stored := lib.questions;
    for i := 0 to |rows|
      invariant ApplyQuestions(lib, rows[..i]) == Some(stored)
    {
      assert rows[..i + 1][..i] == rows[..i];
      if !GuardPasses(lib.sectors, rows[i].sectors) {
        QuestionsStayRefused(lib, rows, i + 1);
        return None;
      }
      stored := ApplyRow(stored, rows[i]);
    }
    assert rows[..|rows|] == rows;
    questions := Some(stored);
  }

  lemma {:induction false} QuestionsStayRefused(lib: Library, rows: seq<Row>, n: nat)
    requires n <= |rows| && ApplyQuestions(lib, rows[..n]).None?
    ensures ApplyQuestions(lib, rows).None?
  {
    if n == |rows| {
      assert rows[..n] == rows;
    } else {
      assert rows[..|rows| - 1][..n] == rows[..n];
      QuestionsStayRefused(lib, rows[..|rows| - 1], n);
    }
  }

  method InstallScenarios(lib: Library, rows: seq<ScenarioRow>) returns (scenarios: Option<V.Store<ScenarioBody>>)
    ensures scenarios == ApplyScenarios(lib, rows)
  {
    var store := lib.scenarios;
    for i := 0 to |rows|
      invariant ApplyScenarios(lib, rows[..i]) == Some(store)
    {
      assert rows[..i + 1][..i] == rows[..i];
      var row := rows[i];
      var refusal := ValidateForActivation(lib, row.body);
      var change := V.Publish(store, row.key, row.body, refusal.None?);
      if !PersonaFits(lib, store, row) || change.Err? {
        ScenariosStayRefused(lib, rows, i + 1);
        return None;
      }
      store := change.value;
    }
    assert rows[..|rows|] == rows;
    scenarios := Some(store);
  }

  lemma {:induction false} ScenariosStayRefused(lib: Library, rows: seq<ScenarioRow>, n: nat)
    requires n <= |rows| && ApplyScenarios(lib, rows[..n]).None?
    ensures ApplyScenarios(lib, rows).None?
  {
    if n == |rows| {
      assert rows[..n] == rows;
    } else {
      assert rows[..|rows| - 1][..n] == rows[..n];
      ScenariosStayRefused(lib, rows[..|rows| - 1], n);
    }
  }

  /** Personas, then questions, then scenarios; one refusal and nothing is kept. */
  method ApplyContent(lib: Library, ds: Dataset) returns (after: Option<Library>)
    ensures after == Applied(lib, ds)
  {
    var personas := InstallPersonas(lib, ds.personas);
    if personas.None? { return None; }
    var questions := InstallQuestions(lib, ds.questions);
    if questions.None? { return None; }
    var ready := lib.(personas := personas.value, questions := questions.value);
    var scenarios := InstallScenarios(ready, ds.scenarios);
    if scenarios.None? { return None; }
    after := Some(ready.(scenarios := scenarios.value));
  }

  // ----- what each part of the content needs

  /** What the parser guarantees of every file: one row per key on each sheet. */
  ghost predicate OneRowPerKey(ds: Dataset) {
    && (forall i, j :: 0 <= i < j < |ds.personas| ==> ds.personas[i].key != ds.personas[j].key)
    && QuestionsOnce(ds.questions)
    && (forall i, j :: 0 <= i < j < |ds.scenarios| ==> ds.scenarios[i].key != ds.scenarios[j].key)
  }

  ghost predicate QuestionsOnce(rows: seq<Row>) {
    forall i, j :: 0 <= i < j < |rows| ==> rows[i].key != rows[j].key
  }

  /** What the database guarantees. */
  ghost predicate SoundLibrary(lib: Library) {
    V.Sound(lib.personas) && V.Sound(lib.scenarios)
  }

  predicate PersonaRowApplies(lib: Library, row: PersonaRow) {
    GuardPasses(lib.sectors, [row.body.sector]) && !V.DraftInTheWay(lib.personas, row.key)
  }

  lemma {:induction false} PersonasApplyIff(lib: Library, rows: seq<PersonaRow>)
    requires V.Sound(lib.personas) && forall i, j :: 0 <= i < j < |rows| ==> rows[i].key != rows[j].key
    ensures ApplyPersonas(lib, rows).Some? <==> forall r :: r in rows ==> PersonaRowApplies(lib, r)
    ensures ApplyPersonas(lib, rows).Some? ==>
              && V.Sound(ApplyPersonas(lib, rows).value)
              && (forall k :: V.CurrentKey(ApplyPersonas(lib, rows).value, k)
                              <==> V.CurrentKey(lib.personas, k) || InFile(rows, k))
              && (forall k :: V.HasKey(ApplyPersonas(lib, rows).value, k)
                              <==> V.HasKey(lib.personas, k) || InFile(rows, k))
              && (forall k ::
                    !InFile(rows, k)
                    ==> (V.DraftInTheWay(ApplyPersonas(lib, rows).value, k) <==> V.DraftInTheWay(lib.personas, k)))
  {
    if rows != [] {
      var n := |rows| - 1;
      var before, row := rows[..n], rows[n];
      assert rows == before + [row];
      PersonasApplyIff(lib, before);
      assert forall k :: InFile(rows, k) <==> InFile(before, k) || k == row.key;
      if ApplyPersonas(lib, before).Some? {
        assert !InFile(before, row.key);
        PersonaStep(ApplyPersonas(lib, before).value, row);
      }
    }
  }

  lemma PersonaStep(store: V.Store<PersonaBody>, row: PersonaRow)
    requires V.Sound(store)
    ensures var change := V.Publish(store, row.key, row.body, true);
            && (change.Ok? <==> !V.DraftInTheWay(store, row.key))
            && (change.Ok? ==>
                  && V.Sound(change.value)
                  && (forall k :: V.CurrentKey(change.value, k) <==> V.CurrentKey(store, k) || k == row.key)
                  && (forall k :: V.HasKey(change.value, k) <==> V.HasKey(store, k) || k == row.key)
                  && (forall k :: k != row.key ==> (V.DraftInTheWay(change.value, k) <==> V.DraftInTheWay(store, k))))
  {
    V.PublishIff(store, row.key, row.body, true);
    if V.Publish(store, row.key, row.body, true).Ok? {
      V.PublishTouches(store, row.key, row.body, true);
      var t := V.Publish(store, row.key, row.body, true).value;
      forall k ensures (V.CurrentKey(t, k) <==> V.CurrentKey(store, k) || k == row.key)
                       && (V.HasKey(t, k) <==> V.HasKey(store, k) || k == row.key) {
        V.TouchesAdd(store, t, row.key, k);
      }
      forall k | k != row.key ensures V.DraftInTheWay(t, k) <==> V.DraftInTheWay(store, k) {
        V.TouchesSpare(store, t, row.key, k);
      }
    }
  }

  lemma {:induction false} QuestionsApplyIff(lib: Library, rows: seq<Row>)
    ensures ApplyQuestions(lib, rows).Some? <==> forall r :: r in rows ==> GuardPasses(lib.sectors, r.sectors)
    ensures ApplyQuestions(lib, rows).Some? ==> ApplyQuestions(lib, rows).value == ApplyRows(lib.questions, rows)
  {
    if rows != [] {
      QuestionsApplyIff(lib, rows[..|rows| - 1]);
      assert rows == rows[..|rows| - 1] + [rows[|rows| - 1]];
    }
  }

  ghost predicate ScenarioRowApplies(lib: Library, row: ScenarioRow) {
    PersonaFits(lib, lib.scenarios, row) && !V.DraftInTheWay(lib.scenarios, row.key) && Activates(lib, row.body)
  }

  /** Publishing other keys has left this row's as it was. */
  ghost predicate SameForKey(s: V.Store<ScenarioBody>, t: V.Store<ScenarioBody>, key: string) {
    && V.CurrentWithKey(t, key) == V.CurrentWithKey(s, key)
    && (V.CurrentWithKey(s, key).Some? ==> t[V.CurrentWithKey(s, key).value] == s[V.CurrentWithKey(s, key).value])
    && (V.DraftInTheWay(t, key) <==> V.DraftInTheWay(s, key))
  }

  /** Only the keys of these rows may have changed. */
  ghost predicate Spares(s: V.Store<ScenarioBody>, t: V.Store<ScenarioBody>, rows: seq<ScenarioRow>) {
    forall k :: !ScenarioInFile(rows, k) ==> SameForKey(s, t, k)
  }

  lemma SparesMore(s: V.Store<ScenarioBody>, t: V.Store<ScenarioBody>, u: V.Store<ScenarioBody>,
                   rows: seq<ScenarioRow>, row: ScenarioRow)
    requires Spares(s, t, rows) && forall k :: k != row.key ==> SameForKey(t, u, k)
    ensures Spares(s, u, rows + [row])
  {
    forall k | !ScenarioInFile(rows + [row], k) ensures SameForKey(s, u, k) {
      assert row in rows + [row] && forall r :: r in rows ==> r in rows + [row];
      assert !ScenarioInFile(rows, k) && k != row.key;
      assert SameForKey(s, t, k) && SameForKey(t, u, k);
    }
  }

  lemma ScenarioRowIsFree(rows: seq<ScenarioRow>, n: nat)
    requires n < |rows| && forall i, j :: 0 <= i < j < |rows| ==> rows[i].key != rows[j].key
    ensures !ScenarioInFile(rows[..n], rows[n].key)
  {}

  ghost predicate AllApply(lib: Library, rows: seq<ScenarioRow>) {
    forall r :: r in rows ==> ScenarioRowApplies(lib, r)
  }

  /** One more row, on a store where its key is as it was. */
  lemma ScenarioRowStep(lib: Library, before: seq<ScenarioRow>, store: V.Store<ScenarioBody>, row: ScenarioRow)
    requires V.Sound(store) && SameForKey(lib.scenarios, store, row.key)
    ensures (PersonaFits(lib, store, row) && V.Publish(store, row.key, row.body, Activates(lib, row.body)).Ok?)
            <==> ScenarioRowApplies(lib, row)
    ensures AllApply(lib, before + [row]) <==> AllApply(lib, before) && ScenarioRowApplies(lib, row)
  {
    ScenarioStep(store, row.key, row.body, Activates(lib, row.body));
    assert forall r :: r in before + [row] <==> r in before || r == row;
  }

  lemma AllApplyPrefix(lib: Library, before: seq<ScenarioRow>, row: ScenarioRow)
    requires !AllApply(lib, before)
    ensures !AllApply(lib, before + [row])
  {
    var r :| r in before && !ScenarioRowApplies(lib, r);
    assert r in before + [row];
  }

  lemma {:induction false} ScenariosApplyIff(lib: Library, rows: seq<ScenarioRow>)
    requires V.Sound(lib.scenarios) && forall i, j :: 0 <= i < j < |rows| ==> rows[i].key != rows[j].key
    ensures ApplyScenarios(lib, rows).Some? <==> AllApply(lib, rows)
    ensures ApplyScenarios(lib, rows).Some? ==>
              V.Sound(ApplyScenarios(lib, rows).value) && Spares(lib.scenarios, ApplyScenarios(lib, rows).value, rows)
  {
    if rows != [] {
      var n := |rows| - 1;
      var before, row := rows[..n], rows[n];
      assert rows == before + [row];
      ScenariosApplyIff(lib, before);
      if ApplyScenarios(lib, before).Some? {
        var store := ApplyScenarios(lib, before).value;
        ScenarioRowIsFree(rows, n);
        assert SameForKey(lib.scenarios, store, row.key);
        ScenarioRowStep(lib, before, store, row);
        if ApplyScenarios(lib, rows).Some? {
          ScenarioStep(store, row.key, row.body, Activates(lib, row.body));
          SparesMore(lib.scenarios, store, ApplyScenarios(lib, rows).value, before, row);
        }
      } else {
        AllApplyPrefix(lib, before, row);
      }
    }
  }

  lemma ScenarioStep(store: V.Store<ScenarioBody>, key: string, body: ScenarioBody, admitted: bool)
    requires V.Sound(store)
    ensures var change := V.Publish(store, key, body, admitted);
            && (change.Ok? <==> admitted && !V.DraftInTheWay(store, key))
            && (change.Ok? ==> V.Sound(change.value) && forall k :: k != key ==> SameForKey(store, change.value, k))
  {
    V.PublishIff(store, key, body, admitted);
    if V.Publish(store, key, body, admitted).Ok? {
      V.PublishTouches(store, key, body, admitted);
      var t := V.Publish(store, key, body, admitted).value;
      forall k | k != key ensures SameForKey(store, t, k) {
        V.TouchesSpare(store, t, key, k);
      }
    }
  }

  // ----- the sectors that content names

  predicate PersonaNames(personas: V.Store<PersonaBody>, sector: string) {
    exists i :: 0 <= i < |personas| && personas[i].content.sector == sector
  }

  predicate QuestionNames(questions: map<string, Stored>, sector: string) {
    exists k :: k in questions && sector in questions[k].sectors
  }

  /** Any version of a persona and any question, whatever its status. */
  predicate ContentNames(lib: Library, sector: string) {
    PersonaNames(lib.personas, sector) || QuestionNames(lib.questions, sector)
  }

  lemma {:induction false} PersonasKeepSound(lib: Library, rows: seq<PersonaRow>)
    requires V.Sound(lib.personas) && ApplyPersonas(lib, rows).Some?
    ensures V.Sound(ApplyPersonas(lib, rows).value)
  {
    if rows != [] {
      var n := |rows| - 1;
      PersonasKeepSound(lib, rows[..n]);
      V.PublishTouches(ApplyPersonas(lib, rows[..n]).value, rows[n].key, rows[n].body, true);
    }
  }

  lemma {:induction false} PersonasBring(lib: Library, rows: seq<PersonaRow>, sector: string)
    requires V.Sound(lib.personas) && ApplyPersonas(lib, rows).Some?
             && PersonaNames(ApplyPersonas(lib, rows).value, sector)
    ensures PersonaNames(lib.personas, sector) || Configured(lib.sectors, sector)
  {
    if rows != [] {
      var n := |rows| - 1;
      var before, row := ApplyPersonas(lib, rows[..n]).value, rows[n];
      PersonasKeepSound(lib, rows[..n]);
      var after := ApplyPersonas(lib, rows).value;
      var i :| 0 <= i < |after| && after[i].content.sector == sector;
      V.PublishBrings(before, row.key, row.body, true, i);
      if after[i].content == row.body {
        assert GuardPasses(lib.sectors, [row.body.sector]) && row.body.sector in [row.body.sector];
      } else {
        PersonasBring(lib, rows[..n], sector);
      }
    } else {
      assert ApplyPersonas(lib, rows).value == lib.personas;
    }
  }

  lemma {:induction false} QuestionsBring(lib: Library, rows: seq<Row>, sector: string)
    requires ApplyQuestions(lib, rows).Some? && QuestionNames(ApplyQuestions(lib, rows).value, sector)
    ensures QuestionNames(lib.questions, sector) || Configured(lib.sectors, sector)
  {
    if rows != [] {
      var n := |rows| - 1;
      var before, after := ApplyQuestions(lib, rows[..n]).value, ApplyQuestions(lib, rows).value;
      var k :| k in after && sector in after[k].sectors;
      if k == rows[n].key {
        assert GuardPasses(lib.sectors, rows[n].sectors);
      } else {
        assert k in before && before[k] == after[k];
        QuestionsBring(lib, rows[..n], sector);
      }
    }
  }

  /** Applying a dataset brings in configured sectors only. */
  lemma AppliedBrings(lib: Library, ds: Dataset, sector: string)
    requires SoundLibrary(lib) && Applied(lib, ds).Some? && ContentNames(Applied(lib, ds).value, sector)
    ensures ContentNames(lib, sector) || Configured(lib.sectors, sector)
  {
    if PersonaNames(Applied(lib, ds).value.personas, sector) {
      PersonasBring(lib, ds.personas, sector);
    } else {
      QuestionsBring(lib, ds.questions, sector);
    }
  }

  // ----- the graph that applying leaves, from the file and the stored rows

  function FindRow(rows: seq<Row>, key: string): (r: Option<Row>)
    ensures r.Some? ==> r.value in rows && r.value.key == key
  {
    if rows == [] then None else if rows[0].key == key then Some(rows[0]) else FindRow(rows[1..], key)
  }

  lemma {:induction false} FindRowFails(rows: seq<Row>, key: string)
    ensures FindRow(rows, key).None? <==> forall r :: r in rows ==> r.key != key
  {
    if rows != [] {
      FindRowFails(rows[1..], key);
      assert rows == [rows[0]] + rows[1..];
    }
  }

  function StoredLinks(lib: Library, key: string): seq<string> {
    if key in lib.questions then lib.questions[key].followUps else []
  }

  /** Each question as the file has it, with the stored trigger where its row has none; else as it is stored. */
  function Patched(lib: Library, ds: Dataset): Graph {
    map k | k in lib.questions.Keys + RowsGraph(ds.questions).Keys
            && (FindRow(ds.questions, k).Some? || k in Active(lib.questions)) ::
      match FindRow(ds.questions, k)
      case Some(r) => Node(r.factKey, if r.trigger.Some? then r.trigger.value else StoredLinks(lib, k))
      case None => Active(lib.questions)[k]
  }

  lemma {:induction false} RowsKeys(rows: seq<Row>, key: string)
    ensures key in RowsGraph(rows) <==> exists r :: r in rows && r.key == key
  {
    if rows != [] {
      var n := |rows| - 1;
      RowsKeys(rows[..n], key);
      assert rows == rows[..n] + [rows[n]];
    }
  }

  /** What is stored under a key that no row has. */
  lemma {:induction false} RowsElsewhere(questions: map<string, Stored>, rows: seq<Row>, key: string)
    requires forall r :: r in rows ==> r.key != key
    ensures key in ApplyRows(questions, rows) <==> key in questions
    ensures key in questions ==> ApplyRows(questions, rows)[key] == questions[key]
  {
    if rows != [] {
      var n := |rows| - 1;
      RowsElsewhere(questions, rows[..n], key);
      assert rows[n] in rows;
    }
  }

  lemma {:induction false} RowsHere(questions: map<string, Stored>, rows: seq<Row>, r: Row)
    requires QuestionsOnce(rows) && r in rows
    ensures r.key in RowsGraph(rows) && RowsGraph(rows)[r.key] == RowNode(r)
    ensures r.key in ApplyRows(questions, rows) && ApplyRows(questions, rows)[r.key] == RowStored(questions, r)
  {
    var n := |rows| - 1;
    assert rows == rows[..n] + [rows[n]];
    if r == rows[n] {
      RowsElsewhere(questions, rows[..n], r.key);
    } else {
      RowsHere(questions, rows[..n], r);
    }
  }

  lemma RowsAt(questions: map<string, Stored>, rows: seq<Row>, key: string)
    requires QuestionsOnce(rows)
    ensures key in RowsGraph(rows) <==> exists r :: r in rows && r.key == key
    ensures key !in RowsGraph(rows) ==>
              && (key in ApplyRows(questions, rows) <==> key in questions)
              && (key in questions ==> ApplyRows(questions, rows)[key] == questions[key])
    ensures forall r :: r in rows && r.key == key ==>
              && RowsGraph(rows)[key] == RowNode(r)
              && key in ApplyRows(questions, rows) && ApplyRows(questions, rows)[key] == RowStored(questions, r)
  {
    RowsKeys(rows, key);
    if key !in RowsGraph(rows) {
      RowsElsewhere(questions, rows, key);
    }
    forall r | r in rows && r.key == key
      ensures RowsGraph(rows)[key] == RowNode(r) && key in ApplyRows(questions, rows)
              && ApplyRows(questions, rows)[key] == RowStored(questions, r)
    {
      RowsHere(questions, rows, r);
    }
  }

  lemma PatchedIsApplied(lib: Library, ds: Dataset)
    requires QuestionsOnce(ds.questions)
    ensures Patched(lib, ds) == Active(ApplyRows(lib.questions, ds.questions))
  {
    var g, g' := Patched(lib, ds), Active(ApplyRows(lib.questions, ds.questions));
    forall k ensures (k in g <==> k in g') && (k in g ==> g[k] == g'[k]) {
      RowsAt(lib.questions, ds.questions, k);
      FindRowFails(ds.questions, k);
    }
  }

  /** The stored trigger that applying the row leaves in place although the row has none. */
  ghost predicate KeepsTrigger(lib: Library, ds: Dataset, key: string) {
    && StoredLinks(lib, key) != []
    && exists r :: r in ds.questions && r.key == key && r.trigger.None?
  }

  /** The file's view and the patched one have the same keys and facts; links differ only where a trigger is kept. */
  lemma MergedAgainstPatched(lib: Library, ds: Dataset, key: string)
    requires QuestionsOnce(ds.questions)
    ensures var g, g' := Merged(lib, ds), Patched(lib, ds);
            && (key in g <==> key in g')
            && (key in g ==> && g[key].factKey == g'[key].factKey
                             && (KeepsTrigger(lib, ds, key) ==> g[key].followUps == [])
                             && (!KeepsTrigger(lib, ds, key) ==> g[key] == g'[key]))
  {
    RowsAt(lib.questions, ds.questions, key);
    FindRowFails(ds.questions, key);
    if FindRow(ds.questions, key).Some? {
      var r := FindRow(ds.questions, key).value;
      forall q | q in ds.questions && q.key == key ensures q == r {
        var i :| 0 <= i < |ds.questions| && ds.questions[i] == q;
        var j :| 0 <= j < |ds.questions| && ds.questions[j] == r;
      }
    }
  }

  lemma SameGraphUnlessKept(lib: Library, ds: Dataset)
    requires QuestionsOnce(ds.questions)
    requires forall k :: !KeepsTrigger(lib, ds, k)
    ensures Merged(lib, ds) == Patched(lib, ds)
  {
    var g, g' := Merged(lib, ds), Patched(lib, ds);
    forall k ensures (k in g <==> k in g') && (k in g ==> g[k] == g'[k]) {
      MergedAgainstPatched(lib, ds, k);
    }
  }

  // ----- exactly when a dataset can be applied

  /** What a scenario row needs of the stored scenario of its key, or of its persona if there is none. */
  predicate ScenarioFits(lib: Library, ds: Dataset, row: ScenarioRow) {
    var current := V.CurrentWithKey(lib.scenarios, row.key);
    if current.Some? then lib.scenarios[current.value].content.personaKey == row.body.personaKey
    else V.HasKey(lib.personas, row.body.personaKey) || InFile(ds.personas, row.body.personaKey)
  }

  ghost predicate ScenarioRowCanApply(lib: Library, ds: Dataset, r: ScenarioRow) {
    && ScenarioFits(lib, ds, r) && !V.DraftInTheWay(lib.scenarios, r.key)
    && AcceptsFlow(Patched(lib, ds), KnownPersona(lib, ds, r.body.personaKey), r.body)
  }

  /** Everything applying asks for, over the stored rows and the file. */
  ghost predicate CanApply(lib: Library, ds: Dataset) {
    && (forall r :: r in ds.personas ==> PersonaRowApplies(lib, r))
    && (forall r :: r in ds.questions ==> GuardPasses(lib.sectors, r.sectors))
    && (forall r :: r in ds.scenarios ==> ScenarioRowCanApply(lib, ds, r))
  }

  /** What the library is like once the personas and the questions are in. */
  lemma PreparedIs(lib: Library, ds: Dataset, key: string)
    requires SoundLibrary(lib) && OneRowPerKey(ds) && Prepared(lib, ds).Some?
    ensures var ready := Prepared(lib, ds).value;
            && ready.scenarios == lib.scenarios && Active(ready.questions) == Patched(lib, ds)
            && (V.CurrentKey(ready.personas, key) <==> KnownPersona(lib, ds, key))
            && (V.HasKey(ready.personas, key) <==> V.HasKey(lib.personas, key) || InFile(ds.personas, key))
  {
    PersonasApplyIff(lib, ds.personas);
    QuestionsApplyIff(lib, ds.questions);
    PatchedIsApplied(lib, ds);
  }

  /** The same question put to the library when its personas and questions are in, and to the rows beforehand. */
  lemma PreparedScenarioIff(lib: Library, ds: Dataset, r: ScenarioRow)
    requires SoundLibrary(lib) && OneRowPerKey(ds) && Prepared(lib, ds).Some?
    ensures ScenarioRowApplies(Prepared(lib, ds).value, r) <==> ScenarioRowCanApply(lib, ds, r)
  {
    var ready := Prepared(lib, ds).value;
    PreparedIs(lib, ds, r.body.personaKey);
    assert PersonaFits(ready, ready.scenarios, r) <==> ScenarioFits(lib, ds, r);
    assert Activates(ready, r.body)
           <==> AcceptsFlow(Patched(lib, ds), KnownPersona(lib, ds, r.body.personaKey), r.body);
  }

  /** A dataset is applied, all of it, exactly when the stored rows and the file meet that condition. */
  lemma AppliesIff(lib: Library, ds: Dataset)
    requires SoundLibrary(lib) && OneRowPerKey(ds)
    ensures Applied(lib, ds).Some? <==> CanApply(lib, ds)
    ensures Applied(lib, ds).Some? ==> SoundLibrary(Applied(lib, ds).value)
  {
    PersonasApplyIff(lib, ds.personas);
    QuestionsApplyIff(lib, ds.questions);
    if Prepared(lib, ds).Some? {
      ScenariosApplyIff(Prepared(lib, ds).value, ds.scenarios);
      forall r | r in ds.scenarios
        ensures ScenarioRowApplies(Prepared(lib, ds).value, r) <==> ScenarioRowCanApply(lib, ds, r)
      {
        PreparedScenarioIff(lib, ds, r);
      }
    }
  }

  /** No open draft stands in the way of a persona or a scenario of the file. */
  predicate NoDraftInTheWay(lib: Library, ds: Dataset) {
    && (forall r :: r in ds.personas ==> !V.DraftInTheWay(lib.personas, r.key))
    && (forall r :: r in ds.scenarios ==> !V.DraftInTheWay(lib.scenarios, r.key))
  }

  /** Every scenario of the file that is stored already is stored for the same persona. */
  predicate PersonasKept(lib: Library, ds: Dataset) {
    forall r :: r in ds.scenarios && V.CurrentWithKey(lib.scenarios, r.key).Some?
                ==> lib.scenarios[V.CurrentWithKey(lib.scenarios, r.key).value].content.personaKey == r.body.personaKey
  }

  /** The links that only the kept triggers of reachable questions add. */
  ghost function KeptLinks(lib: Library, ds: Dataset, flow: set<string>): set<string> {
    var g' := Patched(lib, ds);
    set k, b | k in g' && b in g'[k].followUps && KeepsTrigger(lib, ds, k) && Reachable(g', flow, k) :: b
  }

  /** The follow-ups that kept triggers add to a scenario lead to active questions only. */
  ghost predicate KeptLinksResolve(lib: Library, ds: Dataset, s: ScenarioBody) {
    forall k :: !Dangling(Patched(lib, ds), KeptLinks(lib, ds, Elements(s.flow)), k)
  }

  lemma {:induction false} PathPrefixed(g: Graph, flow: set<string>, links: set<string>, path: seq<string>)
    requires IsPath(g, links, path) && forall b :: b in links ==> Mentioned(g, flow, b)
    ensures Mentioned(g, flow, path[|path| - 1])
  {
    if |path| > 1 {
      var n := |path| - 1;
      PathPrefixed(g, flow, links, path[..n]);
      assert path[n - 1] in g && path[n] in g[path[n - 1]].followUps;
      FollowUpIsMentioned(g, flow, path[n - 1], path[n]);
    }
  }

  /** A link the validation saw, or one reached through a kept trigger. */
  ghost predicate Explained(lib: Library, ds: Dataset, flow: set<string>, key: string) {
    || Mentioned(Merged(lib, ds), flow, key)
    || Mentioned(Patched(lib, ds), KeptLinks(lib, ds, flow), key)
  }

  lemma StepIsExplained(lib: Library, ds: Dataset, flow: set<string>, k: string, b: string)
    requires QuestionsOnce(ds.questions) && Reachable(Patched(lib, ds), flow, k)
    requires b in Patched(lib, ds)[k].followUps && Explained(lib, ds, flow, k)
    ensures Explained(lib, ds, flow, b)
  {
    var g, g' := Merged(lib, ds), Patched(lib, ds);
    var links := KeptLinks(lib, ds, flow);
    MergedAgainstPatched(lib, ds, k);
    if KeepsTrigger(lib, ds, k) {
      FlowIsMentioned(g', links, b);
    } else if Mentioned(g, flow, k) {
      FollowUpIsMentioned(g, flow, k, b);
    } else {
      FollowUpIsMentioned(g', links, k, b);
    }
  }

  lemma PathPrefix(g: Graph, flow: set<string>, path: seq<string>)
    requires IsPath(g, flow, path) && |path| > 1
    ensures var n := |path| - 1;
            && IsPath(g, flow, path[..n]) && path[..n][n - 1] == path[n - 1]
            && Reachable(g, flow, path[n - 1]) && path[n] in g[path[n - 1]].followUps
  {
    var n := |path| - 1;
    assert path[n - 1] in g && path[n] in g[path[n - 1]].followUps;
    assert IsPath(g, flow, path[..n]) && path[..n][|path[..n]| - 1] == path[n - 1];
  }

  lemma {:induction false} PathIsExplained(lib: Library, ds: Dataset, flow: set<string>, path: seq<string>)
    requires QuestionsOnce(ds.questions) && IsPath(Patched(lib, ds), flow, path)
    ensures Explained(lib, ds, flow, path[|path| - 1])
  {
    var n := |path| - 1;
    if n == 0 {
      FlowIsMentioned(Merged(lib, ds), flow, path[0]);
    } else {
      PathPrefix(Patched(lib, ds), flow, path);
      PathIsExplained(lib, ds, flow, path[..n]);
      StepIsExplained(lib, ds, flow, path[n - 1], path[n]);
    }
  }

  lemma PathSurvives(lib: Library, ds: Dataset, flow: set<string>, path: seq<string>)
    requires QuestionsOnce(ds.questions) && IsPath(Merged(lib, ds), flow, path)
    ensures IsPath(Patched(lib, ds), flow, path)
  {
    forall i | 0 <= i < |path| - 1
      ensures path[i] in Patched(lib, ds) && path[i + 1] in Patched(lib, ds)[path[i]].followUps
    {
      MergedAgainstPatched(lib, ds, path[i]);
    }
  }

  /** A flow the validation accepts can be activated exactly when the kept triggers lead to active questions only. */
  lemma AcceptedFlowIff(lib: Library, ds: Dataset, s: ScenarioBody)
    requires QuestionsOnce(ds.questions) && AcceptsFlow(Merged(lib, ds), KnownPersona(lib, ds, s.personaKey), s)
    ensures AcceptsFlow(Patched(lib, ds), KnownPersona(lib, ds, s.personaKey), s) <==> KeptLinksResolve(lib, ds, s)
  {
    var g, g' := Merged(lib, ds), Patched(lib, ds);
    var flow := Elements(s.flow);
    var links := KeptLinks(lib, ds, flow);
    forall b | b in links ensures Mentioned(g', flow, b) {
      var k :| k in g' && b in g'[k].followUps && Reachable(g', flow, k);
      FollowUpIsMentioned(g', flow, k, b);
    }
    forall k ensures Dangling(g', flow, k) <==> Dangling(g', links, k) {
      if Dangling(g', links, k) {
        var path :| IsPath(g', links, path) && path[|path| - 1] == k;
        PathPrefixed(g', flow, links, path);
      }
      if Dangling(g', flow, k) {
        var path :| IsPath(g', flow, path) && path[|path| - 1] == k;
        PathIsExplained(lib, ds, flow, path);
        MergedAgainstPatched(lib, ds, k);
        assert !Dangling(g, flow, k);
      }
    }
    forall f | f in s.required ensures exists k :: Reachable(g', flow, k) && g'[k].factKey == f {
      var k :| Reachable(g, flow, k) && g[k].factKey == f;
      var path :| IsPath(g, flow, path) && path[|path| - 1] == k;
      PathSurvives(lib, ds, flow, path);
      MergedAgainstPatched(lib, ds, k);
      assert Reachable(g', flow, k);
    }
  }

  lemma CurrentHasKey(lib: Library, key: string)
    ensures V.CurrentKey(lib.personas, key) ==> V.HasKey(lib.personas, key)
  {}

  /**
   * An accepted dataset is applied exactly when no open draft stands in the way, the stored scenarios are for the same
   * personas, and kept triggers lead to active questions only.
   */
  lemma AcceptedActivatesIff(lib: Library, ds: Dataset)
    requires SoundLibrary(lib) && OneRowPerKey(ds) && Accepts(lib, ds)
    ensures Applied(lib, ds).Some?
            <==> && NoDraftInTheWay(lib, ds) && PersonasKept(lib, ds)
                 && forall s :: s in ds.scenarios ==> KeptLinksResolve(lib, ds, s.body)
  {
    AppliesIff(lib, ds);
    assert forall r :: r in ds.personas ==> AcceptsPersona(lib, ds, r);
    assert forall r :: r in ds.questions ==> AcceptsTags(lib, ds, r) && GuardPasses(lib.sectors, r.sectors);
    forall s | s in ds.scenarios
      ensures AcceptsFlow(Patched(lib, ds), KnownPersona(lib, ds, s.body.personaKey), s.body)
              <==> KeptLinksResolve(lib, ds, s.body)
    {
      AcceptedFlowIff(lib, ds, s.body);
    }
    forall s | s in ds.scenarios && V.CurrentWithKey(lib.scenarios, s.key).None? ensures ScenarioFits(lib, ds, s) {
      CurrentHasKey(lib, s.body.personaKey);
    }
  }

  /** What the validation asks of everything but the scenarios. */
  ghost predicate RestAccepted(lib: Library, ds: Dataset) {
    && (forall p :: p in ds.personas ==> AcceptsPersona(lib, ds, p))
    && (forall r :: r in ds.questions ==> AcceptsTags(lib, ds, r))
    && TriggersResolve(Merged(lib, ds), ds.questions)
    && ds.sheetErrors == []
  }

  /**
   * A dataset whose rows drop no stored trigger is accepted if and only if its references resolve and each of its
   * scenarios can be activated once its personas and questions are in; and then it is applied unless a draft is in the
   * way or a persona was changed.
   */
  lemma AcceptedActivates(lib: Library, ds: Dataset)
    requires SoundLibrary(lib) && OneRowPerKey(ds) && forall k :: !KeepsTrigger(lib, ds, k)
    ensures Accepts(lib, ds)
            <==> RestAccepted(lib, ds)
                 && forall s :: s in ds.scenarios
                                ==> AcceptsFlow(Patched(lib, ds), KnownPersona(lib, ds, s.body.personaKey), s.body)
    ensures Accepts(lib, ds) && NoDraftInTheWay(lib, ds) && PersonasKept(lib, ds) ==> Applied(lib, ds).Some?
  {
    SameGraphUnlessKept(lib, ds);
    if Accepts(lib, ds) {
      AcceptedActivatesIff(lib, ds);
      forall s | s in ds.scenarios ensures KeptLinksResolve(lib, ds, s.body) {
        AcceptedFlowIff(lib, ds, s.body);
      }
    }
  }

  // ----- the three failing families

  lemma LoneQuestionIsClosed(g: Graph, key: string)
    requires key in g && g[key].followUps == []
    ensures IsClosure(g, {key}, {key}) && IsDangling(g, {key}, {})
  {
    FlowIsMentioned(g, {key}, key);
    WalkedAll(g, {key}, {key}, {});
  }

  lemma LoneQuestionIsAccepted(g: Graph, key: string, s: ScenarioBody)
    requires key in g && g[key].followUps == [] && s.flow == [key]
    requires forall f :: f in s.required ==> f == g[key].factKey
    ensures AcceptsFlow(g, true, s)
  {
    assert Elements(s.flow) == {key};
    LoneQuestionIsClosed(g, key);
    forall k ensures !Dangling(g, {key}, k) {
      var none: set<string> := {};
      assert k !in none;
    }
    assert key in {key} && Reachable(g, {key}, key);
    forall f | f in s.required ensures exists k :: Reachable(g, {key}, k) && g[k].factKey == f {
      assert g[key].factKey == f;
    }
  }

  /** One row without a trigger and one new scenario that opens with its question. */
  function OneRowDataset(scenarioKey: string, personaKey: string, key: string, factKey: string): Dataset {
    Dataset([], [Row(key, factKey, None, [], [], [])],
      [ScenarioRow(scenarioKey, ScenarioBody(personaKey, [key], [factKey]))], [])
  }

  lemma LoneRowIsAccepted(lib: Library, scenarioKey: string, personaKey: string, key: string, factKey: string)
    requires V.CurrentKey(lib.personas, personaKey)
    ensures Accepts(lib, OneRowDataset(scenarioKey, personaKey, key, factKey))
  {
    var ds := OneRowDataset(scenarioKey, personaKey, key, factKey);
    var g, s := Merged(lib, ds), ds.scenarios[0];
    RowsAt(lib.questions, ds.questions, key);
    assert ds.questions[0] in ds.questions;
    assert g[key] == Node(factKey, []);
    LoneQuestionIsAccepted(g, key, s.body);
    assert AcceptsTags(lib, ds, ds.questions[0]);
  }

  /**
   * A row that drops its trigger, over a stored trigger one of whose follow-ups is not active: the dataset is
   * accepted, and can never be applied.
   */
  lemma AcceptedYetRefused(lib: Library, scenarioKey: string, personaKey: string, key: string, factKey: string,
                           next: string)
    requires SoundLibrary(lib) && V.CurrentKey(lib.personas, personaKey) && key in lib.questions && next != key
    requires next in lib.questions[key].followUps && (next in lib.questions ==> !lib.questions[next].active)
    ensures var ds := OneRowDataset(scenarioKey, personaKey, key, factKey);
            OneRowPerKey(ds) && Accepts(lib, ds) && Applied(lib, ds).None?
  {
    var ds := OneRowDataset(scenarioKey, personaKey, key, factKey);
    var g', s := Patched(lib, ds), ds.scenarios[0];
    LoneRowIsAccepted(lib, scenarioKey, personaKey, key, factKey);
    AppliesIff(lib, ds);
    RowsAt(lib.questions, ds.questions, key);
    assert ds.questions[0] in ds.questions;
    assert key in g' && next in g'[key].followUps && next !in g';
    FlowIsMentioned(g', Elements(s.body.flow), key);
    FollowUpIsMentioned(g', Elements(s.body.flow), key, next);
    assert Dangling(g', Elements(s.body.flow), next);
  }

  /** Somebody is editing a persona: a dataset with a row for it is accepted, and cannot be applied. */
  lemma DraftYetAccepted(lib: Library, row: PersonaRow)
    requires SoundLibrary(lib) && row.body.sector in lib.sectors && row.defaultScenario.None?
    requires V.DraftInTheWay(lib.personas, row.key)
    ensures var ds := Dataset([row], [], [], []); OneRowPerKey(ds) && Accepts(lib, ds) && Applied(lib, ds).None?
  {
    var ds := Dataset([row], [], [], []);
    AppliesIff(lib, ds);
    assert row in ds.personas && AcceptsPersona(lib, ds, row);
  }

  /** Somebody is editing a scenario: a dataset with a row for it is accepted, and cannot be applied. */
  lemma ScenarioDraftYetAccepted(lib: Library, scenarioKey: string, personaKey: string, key: string, factKey: string)
    requires SoundLibrary(lib) && V.CurrentKey(lib.personas, personaKey) && V.DraftInTheWay(lib.scenarios, scenarioKey)
    ensures var ds := OneRowDataset(scenarioKey, personaKey, key, factKey);
            OneRowPerKey(ds) && Accepts(lib, ds) && Applied(lib, ds).None?
  {
    var ds := OneRowDataset(scenarioKey, personaKey, key, factKey);
    LoneRowIsAccepted(lib, scenarioKey, personaKey, key, factKey);
    AppliesIff(lib, ds);
    assert ds.scenarios[0] in ds.scenarios;
  }

  /** A scenario row for another persona than the stored scenario's is accepted, and can never be applied. */
  lemma OtherPersonaYetAccepted(lib: Library, scenarioKey: string, personaKey: string, key: string, factKey: string)
    requires SoundLibrary(lib) && V.CurrentKey(lib.personas, personaKey)
    requires var current := V.CurrentWithKey(lib.scenarios, scenarioKey);
             current.Some? && lib.scenarios[current.value].content.personaKey != personaKey
    ensures var ds := OneRowDataset(scenarioKey, personaKey, key, factKey);
            OneRowPerKey(ds) && Accepts(lib, ds) && Applied(lib, ds).None?
  {
    var ds := OneRowDataset(scenarioKey, personaKey, key, factKey);
    LoneRowIsAccepted(lib, scenarioKey, personaKey, key, factKey);
    AppliesIff(lib, ds);
    assert ds.scenarios[0] in ds.scenarios && !ScenarioFits(lib, ds, ds.scenarios[0]);
  }
}
