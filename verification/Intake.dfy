/**
 * One assessment document and the operations of src/modules/assessments/service.ts that change it, as
 * functions from document to document. Each operation also says which audit events it writes. A failed
 * operation is a rolled-back transaction: no document, no event. What the language model, the content
 * library and the reviewer directory answer enters as arbitrary input.
 */
module Intake {
  import opened Prelude
  import opened Conditions
  import opened Branching
  import opened RuleEngine
  import opened Scoring

  const LOW_CONFIDENCE := 0.7
  const SETTLE_CONFIDENCE := 0.5
  const MIN_DESCRIPTION := 10

  datatype Status = InProgress | IntakeComplete | AwaitingDecision | Escalated | Closed | ErrorReview

  datatype Phase = PersonaPhase | DescribePhase | QuestionsPhase | DonePhase

  datatype PersonaSource = ByUser | ByAi

  datatype ScenarioSource = Inferred | Default

  datatype FactSource = FromChoice | FromAi

  datatype Fact =
    Fact(key: string, value: Value, source: FactSource, questionKey: string, confidence: real, flagged: bool)

  datatype AnswerRecord = AnswerRecord(questionKey: string, given: Value)

  /** Everything frozen when the scenario is selected. */
  datatype PinnedContent = PinnedContent(
    flow: seq<FlowNode>, required: seq<string>, questions: seq<Question>,
    matrix: Matrix, rules: seq<Rule>, actions: map<Classification, string>)

  /** What pinning guarantees: one question per key, every referenced question present, a schema-valid matrix. */
  ghost predicate ValidPin(p: PinnedContent) {
    && (forall i, j :: 0 <= i < j < |p.questions| ==> p.questions[i].key != p.questions[j].key)
    && (forall n :: n in p.flow ==> n.questionKey in KeysOf(p.questions))
    && (forall q, k :: q in p.questions && q.branch.Some? && k in q.branch.value.questionKeys
                       ==> k in KeysOf(p.questions))
    && ValidMatrix(p.matrix)
  }

  const PlainFactor := Factor(0.0, 1.0, 5.0, [])
  const PlainMatrix := Matrix(
    PerFactor(Factor(100.0, 1.0, 5.0, []), PlainFactor, PlainFactor, PlainFactor, PlainFactor, PlainFactor),
    Bands(Band(0, 24), Band(25, 49), Band(50, 74), Band(75, 100)), 60.0, 40.0)

  type Pin = p: PinnedContent | ValidPin(p) witness PinnedContent([], [], [], PlainMatrix, [], map[])

  datatype Outcome = Outcome(
    score: int, classification: Classification, computedClassification: Classification, ruleDriven: bool,
    ruleKey: Option<string>, confidence: int, professionalConsult: bool, mandatoryReview: bool,
    recommendedAction: string, explanation: string, factors: PerFactor<Trace>)

  datatype DecisionKind = Accept | Override | Escalate

  datatype Decision = Decision(kind: DecisionKind, overriddenTo: Option<Classification>, reason: Option<string>)

  datatype Doc = Doc(
    status: Status, phase: Phase, openingText: Option<string>,
    personaKey: Option<string>, personaSource: Option<PersonaSource>,
    scenarioKey: Option<string>, scenarioSource: Option<ScenarioSource>, pin: Option<Pin>,
    answers: seq<AnswerRecord>, facts: seq<Fact>, asked: seq<string>, queue: seq<string>,
    current: Option<string>, clarification: Option<string>,
    result: Option<Outcome>, decision: Option<Decision>, escalatedTo: Option<string>)

  const NewDoc :=
    Doc(InProgress, PersonaPhase, None, None, None, None, None, None, [], [], [], [], None, None, None, None, None)

  /** Audit payloads after the JSON round trip, which drops undefined fields; `None` is a field that is not there. */
  datatype Event =
    | Started(personaKey: Option<string>, personaSource: Option<PersonaSource>, openingText: Option<string>)
    | PersonaSet(chosen: string)
    | ScenarioSelected(scenarioKey: string, source: ScenarioSource)
    | Answered(questionKey: string, detail: Option<AnswerDetail>, branchedCount: nat)
    | RulesEvaluated(detailed: Option<seq<Rule>>, winner: Option<string>)
    | Scored(score: int, computed: Option<Classification>, final: Option<Classification>,
      factors: Option<PerFactor<Trace>>)
    | Recommended(classification: Classification, confidence: int, prose: Option<Prose>)
    | DecisionRecorded(kind: DecisionKind, overriddenTo: Option<Classification>, escalatedTo: Option<string>,
                       reason: Option<Option<string>>)

  datatype AnswerDetail = AnswerDetail(answer: Value, facts: seq<Fact>, branched: seq<string>)

  datatype Prose = Prose(ruleDriven: bool, recommendedAction: string, explanation: string)

  datatype Failure = Conflict | Invalid | MissingFacts | DecisionRequired | FeatureDisabled

  /** A committed operation: the new document and the events it wrote. */
  datatype Commit = Commit(doc: Doc, events: seq<Event>)

  type Step = Result<Commit, Failure>

  // ----- facts

  function FactsOf(facts: seq<Fact>): Facts {
    if facts == [] then map[]
    else
      var f := facts[|facts| - 1];
      FactsOf(facts[..|facts| - 1])[f.key := f.value]
  }

  function ConfidencesOf(facts: seq<Fact>): map<string, real> {
    if facts == [] then map[]
    else
      var f := facts[|facts| - 1];
      ConfidencesOf(facts[..|facts| - 1])[f.key := f.confidence]
  }

  function FactKeys(facts: seq<Fact>): seq<string> {
    seq(|facts|, i requires 0 <= i < |facts| => facts[i].key)
  }

  /** Overwrites the fact of the same key, or appends. */
  function SetFact(facts: seq<Fact>, f: Fact): seq<Fact> {
    if facts == [] then [f]
    else if facts[0].key == f.key then [f] + facts[1..]
    else [facts[0]] + SetFact(facts[1..], f)
  }

  lemma {:induction false} SetFactMembers(facts: seq<Fact>, f: Fact)
    ensures f in SetFact(facts, f)
    ensures forall g :: g in SetFact(facts, f) ==> g == f || g in facts
  {
    if facts != [] && facts[0].key != f.key {
      SetFactMembers(facts[1..], f);
    }
  }

  function FactFor(key: string, value: Value, source: FactSource, questionKey: string, confidence: real): Fact {
    Fact(key, value, source, questionKey, confidence, confidence < LOW_CONFIDENCE)
  }

  // ----- choosing the next question

  /** The question to ask once more: the producer of the first missing fact that has one. */
  function Reask(questions: seq<Question>, asked: seq<string>, missing: seq<string>): Option<Question> {
    if missing == [] then None
    else
      var p := Producer(questions, missing[0]);
      if p.Some? && multiset(asked)[p.value.key] < 2 then p
      else Reask(questions, asked, missing[1..])
  }

  function Without(asked: seq<string>, key: string): seq<string> {
    Filter((k: string) => k != key, asked)
  }

  /** The fields of a document that choosing the next question may change. */
  datatype Cursor =
    Cursor(queue: seq<string>, current: Option<string>, asked: seq<string>, phase: Phase, status: Status)

  function NextStop(co: Coercions, pin: Pin, facts: Facts, c: Cursor): Cursor {
    var (question, queue) := NextQuestion(co.norm, pin.flow, pin.questions, c.asked, facts, c.queue);
    if question.Some? then Cursor(queue, Some(question.value.key), c.asked, QuestionsPhase, c.status)
    else
      var again := Reask(pin.questions, c.asked, MissingRequired(pin.required, facts));
      if again.Some? then Cursor(queue, Some(again.value.key), Without(c.asked, again.value.key), c.phase, c.status)
      else Cursor(queue, None, c.asked, DonePhase, IntakeComplete)
  }

  function CursorOf(d: Doc): Cursor {
    Cursor(d.queue, d.current, d.asked, d.phase, d.status)
  }

  function Placed(d: Doc, c: Cursor): Doc {
    d.(queue := c.queue, current := c.current, asked := c.asked, phase := c.phase, status := c.status)
  }

  function Advance(co: Coercions, pin: Pin, d: Doc): Doc {
    Placed(d, NextStop(co, pin, FactsOf(d.facts), CursorOf(d)))
  }

  // ----- starting

  /** A scenario selection prepared outside the transaction. */
  datatype Selection = Selection(personaKey: string, scenarioKey: string, source: ScenarioSource, pin: Pin)

  function Pinned(d: Doc, sel: Selection): Doc {
    d.(scenarioKey := Some(sel.scenarioKey), scenarioSource := Some(sel.source), pin := Some(sel.pin),
       queue := InitialQueue(sel.pin.flow))
  }

  function Begin(co: Coercions, d: Doc, sel: Selection): Step {
    if sel.pin.questions == [] then Err(Conflict)
    else
      Ok(Commit(Advance(co, sel.pin, Pinned(d, sel)), [ScenarioSelected(sel.scenarioKey, sel.source)]))
  }

  predicate HasText(t: Option<string>) {
    t.Some? && t.value != ""
  }

  function AfterPersona(co: Coercions, d: Doc, sel: Option<Selection>): Step {
    if !HasText(d.openingText) then Ok(Commit(d.(phase := DescribePhase), []))
    else if sel.None? || Some(sel.value.personaKey) != d.personaKey then Err(Conflict)
    else Begin(co, d, sel.value)
  }

  function Then(events: seq<Event>, s: Step): Step {
    match s
    case Ok(c) => Ok(Commit(c.doc, events + c.events))
    case Err(e) => Err(e)
  }

  /** `chosen` is the persona named by the caller, `proposed` the one the model inferred with enough confidence. */
  function Start(co: Coercions, full: bool, text: Option<string>, chosen: Option<string>, proposed: Option<string>,
                 sel: Option<Selection>): Step
  {
    var blank := NewDoc.(openingText := text);
    var d :=
      if chosen.Some? then blank.(personaKey := chosen, personaSource := Some(ByUser))
      else if proposed.Some? then blank.(personaKey := proposed, personaSource := Some(ByAi))
      else blank;
    var started :=
      if full then Started(d.personaKey, d.personaSource, d.openingText) else Started(d.personaKey, None, None);
    if chosen.Some? then Then([started], AfterPersona(co, d, sel)) else Ok(Commit(d, [started]))
  }

  function SetPersona(co: Coercions, d: Doc, personaKey: string, sel: Option<Selection>): Step {
    if d.phase.QuestionsPhase? || d.phase.DonePhase? then Err(Conflict)
    else
      var e := d.(personaKey := Some(personaKey), personaSource := Some(ByUser));
      Then([PersonaSet(personaKey)], AfterPersona(co, e, sel))
  }

  function Describe(co: Coercions, d: Doc, text: string, sel: Option<Selection>): Step {
    if d.status != InProgress || d.phase != DescribePhase then Err(Conflict)
    else if |text| < MIN_DESCRIPTION then Err(Invalid)
    else if sel.None? || Some(sel.value.personaKey) != d.personaKey then Err(Conflict)
    else Begin(co, d.(openingText := Some(text)), sel.value)
  }

  // ----- answering

  /** A message to the intake; the schema requires a value or a non-empty text. */
  datatype Message = Message(questionKey: Option<string>, value: Option<Value>, text: Option<string>)
  {
    ghost predicate Valid() { value.Some? || HasText(text) }

    function Raw(): Value {
      if value.Some? then value.value else if text.Some? then Str(text.value) else Null
    }
  }

  datatype ExtractedFact = ExtractedFact(key: string, value: Value, confidence: real)

  datatype Extraction = Extraction(facts: seq<ExtractedFact>, clarification: Option<string>)

  predicate NeedsExtraction(q: Question, m: Message) {
    q.kind.FreeText? || (m.value.None? && HasText(m.text))
  }

  predicate Known(pin: Pin, factKey: string) {
    exists q :: q in pin.questions && q.factKey == factKey
  }

  /** May this extracted side fact be recorded? It only ever fills a gap. */
  predicate FillsGap(co: Coercions, pin: Pin, q: Question, facts: seq<Fact>, x: ExtractedFact) {
    && x.key != q.factKey && Known(pin, x.key)
    && (forall f :: f in facts ==> f.key != x.key)
    && x.confidence >= LOW_CONFIDENCE && !co.placeholder(x.value)
  }

  function FillGaps(co: Coercions, pin: Pin, q: Question, facts: seq<Fact>, xs: seq<ExtractedFact>): seq<Fact>
    decreases |xs|
  {
    if xs == [] then facts
    else
      var x := xs[0];
      var filled :=
        if FillsGap(co, pin, q, facts, x) then SetFact(facts, FactFor(x.key, x.value, FromAi, q.key, x.confidence))
        else facts;
      FillGaps(co, pin, q, filled, xs[1..])
  }

  function FindExtracted(xs: seq<ExtractedFact>, key: string): (r: Option<ExtractedFact>)
    ensures r.Some? ==> r.value in xs && r.value.key == key
  {
    if xs == [] then None else if xs[0].key == key then Some(xs[0]) else FindExtracted(xs[1..], key)
  }

  /** The fact an extraction stores for the question asked, sure or not. */
  function ExtractedAnswer(co: Coercions, q: Question, m: Message, x: Extraction): Fact {
    var asked := FindExtracted(x.facts, q.factKey);
    var coerced := if asked.Some? then StructuredValue(co, q, asked.value.value) else None;
    var value :=
      if coerced.Some? then coerced.value
      else if asked.Some? then asked.value.value
      else Str(co.show(m.Raw()));
    var stated := if asked.Some? then asked.value.confidence else 0.3;
    var confidence := if IsSure(co, q, x) then stated else if stated < 0.4 then stated else 0.4;
    FactFor(q.factKey, value, FromAi, q.key, confidence)
  }

  /** The asked fact was extracted, fits the question and is confident enough. */
  predicate IsSure(co: Coercions, q: Question, x: Extraction) {
    var asked := FindExtracted(x.facts, q.factKey);
    && asked.Some? && StructuredValue(co, q, asked.value.value).Some?
    && asked.value.confidence >= SETTLE_CONFIDENCE
  }

  /** What an answer amounts to: refused, in need of one clarification, or settled with a value. */
  datatype Verdict = Refused | Unclear(facts: seq<Fact>) | Settled(facts: seq<Fact>, value: Value)

  function Judge(co: Coercions, pin: Pin, d: Doc, q: Question, m: Message, x: Extraction): Verdict {
    if NeedsExtraction(q, m) then
      var filled := FillGaps(co, pin, q, d.facts, x.facts);
      if !IsSure(co, q, x) && !HasText(d.clarification) then Unclear(filled)
      else
        var f := ExtractedAnswer(co, q, m, x);
        Settled(SetFact(filled, f), f.value)
    else
      var v := StructuredValue(co, q, m.Raw());
      if v.None? then Refused
      else Settled(SetFact(d.facts, FactFor(q.factKey, v.value, FromChoice, q.key, 1.0)), v.value)
  }

  /** The facts whose latest value came from this question. */
  function FactsFrom(facts: seq<Fact>, questionKey: string): seq<Fact> {
    Filter((f: Fact) => f.questionKey == questionKey, facts)
  }

  function AnsweredEvent(full: bool, q: Question, m: Message, facts: seq<Fact>, branched: seq<string>): Event {
    Answered(q.key, if full then Some(AnswerDetail(m.Raw(), FactsFrom(facts, q.key), branched)) else None, |branched|)
  }

  /** The document after a settled answer, before the next question is chosen. */
  function Settle(co: Coercions, d: Doc, q: Question, m: Message, facts: seq<Fact>, value: Value): Doc {
    var asked := d.asked + [q.key];
    d.(answers := d.answers + [AnswerRecord(q.key, m.Raw())], facts := facts, clarification := None, asked := asked,
       queue := ApplyBranch(co.norm, q, value, d.queue, asked).0)
  }

  /** A settled answer: the branch fires, the next question is chosen, and one event is written. */
  function SettleStep(co: Coercions, full: bool, pin: Pin, d: Doc, q: Question, m: Message, facts: seq<Fact>,
                      value: Value): Commit
  {
    var settled := Settle(co, d, q, m, facts, value);
    var branched := ApplyBranch(co.norm, q, value, d.queue, settled.asked).1;
    Commit(Advance(co, pin, settled), [AnsweredEvent(full, q, m, facts, branched)])
  }

  /** An unclear answer: it is recorded, one clarification is asked, and the question stays current. */
  function ClarifyStep(full: bool, d: Doc, q: Question, m: Message, x: Extraction, facts: seq<Fact>): Commit {
    var ask := if x.clarification.Some? then x.clarification.value else "Could you clarify: " + q.text;
    Commit(d.(answers := d.answers + [AnswerRecord(q.key, m.Raw())], facts := facts, clarification := Some(ask)),
           [AnsweredEvent(full, q, m, facts, [])])
  }

  /** The question a message answers, when it may be answered now. */
  function Pending(d: Doc, m: Message): Option<Question> {
    if d.status != InProgress || d.phase != QuestionsPhase || d.pin.None? || d.current.None? then None
    else if m.questionKey.Some? && m.questionKey != d.current then None
    else FindQuestion(d.pin.value.questions, d.current.value)
  }

  function Answer(co: Coercions, full: bool, d: Doc, m: Message, x: Extraction): Step {
    var pending := Pending(d, m);
    if pending.None? then Err(Conflict)
    else
      var pin, q := d.pin.value, pending.value;
      match Judge(co, pin, d, q, m, x)
      case Refused => Err(Invalid)
      case Unclear(facts) => Ok(ClarifyStep(full, d, q, m, x, facts))
      case Settled(facts, value) => Ok(SettleStep(co, full, pin, d, q, m, facts, value))
  }

  // ----- where a message goes

  /** The active personas, and the scenario selected for one of them and a text, if one can be selected and pinned. */
  datatype Directory = Directory(active: set<string>, select: (string, string) -> Option<Selection>)

  /** The persona a message names. */
  function PersonaNamed(co: Coercions, m: Message): string {
    if m.value.Some? then co.show(m.value.value) else if m.text.Some? then m.text.value else ""
  }

  /** The description a message gives. */
  function DescriptionGiven(co: Coercions, m: Message): string {
    co.trim(if m.text.Some? then m.text.value else if m.value.Some? then co.show(m.value.value) else "")
  }

  function ChooseActive(co: Coercions, d: Doc, key: string, dir: Directory): Step {
    if d.phase.QuestionsPhase? || d.phase.DonePhase? then Err(Conflict)
    else if key !in dir.active then Err(Invalid)
    else if !HasText(d.openingText) then SetPersona(co, d, key, None)
    else
      match dir.select(key, d.openingText.value)
      case None => Err(Conflict)
      case Some(sel) => SetPersona(co, d, key, Some(sel))
  }

  /** The phase decides what a message is: the choice of a persona, the description, or an answer. */
  function Receive(co: Coercions, full: bool, d: Doc, m: Message, x: Extraction, dir: Directory): Step {
    if d.status != InProgress then Err(Conflict)
    else
      match d.phase
      case PersonaPhase => ChooseActive(co, d, PersonaNamed(co, m), dir)
      case DescribePhase =>
        var text := DescriptionGiven(co, m);
        if |text| < MIN_DESCRIPTION then Err(Invalid)
        else if d.personaKey.None? || d.personaKey.value !in dir.active then Err(Conflict)
        else
          var sel := dir.select(d.personaKey.value, text);
          if sel.None? then Err(Conflict) else Describe(co, d, text, sel)
      case _ => Answer(co, full, d, m, x)
  }

  // ----- the result and the human decision

  const CONSULT := "Further Professional Risk Guidance Needed"
  const MANAGE := "Manage the Risk"

  function Score(co: Coercions, pin: Pin, facts: seq<Fact>): ScoreResult {
    assert forall k: FactorKey :: ValidFactor(pin.matrix.factors.At(k));
    Simulate(co.norm, pin.matrix, pin.rules, FactKeys(facts), FactsOf(facts), pin.required, ConfidencesOf(facts))
  }

  function RecommendedAction(pin: Pin, r: ScoreResult): string {
    if r.professionalConsult then CONSULT
    else if r.rule.Some? && r.rule.value.winner.forcedAction.Some? then r.rule.value.winner.forcedAction.value
    else if r.classification in pin.actions then pin.actions[r.classification]
    else MANAGE
  }

  function OutcomeOf(pin: Pin, r: ScoreResult, explanation: string): Outcome {
    Outcome(r.score, r.classification, r.computedClassification, r.rule.Some?,
            if r.rule.Some? then Some(r.rule.value.winner.key) else None,
            r.confidence, r.professionalConsult, r.mandatoryReview, RecommendedAction(pin, r), explanation, r.factors)
  }

  function SubmitEvents(full: bool, r: ScoreResult, o: Outcome): seq<Event> {
    var fired := if r.rule.Some? then r.rule.value.fired else [];
    if full then
      [ RulesEvaluated(Some(fired), o.ruleKey),
        Scored(r.score, Some(r.computedClassification), None, Some(r.factors)),
        Recommended(r.classification, r.confidence, Some(Prose(o.ruleDriven, o.recommendedAction, o.explanation))) ]
    else
      [ RulesEvaluated(None, None),
        Scored(r.score, None, Some(r.classification), None),
        Recommended(r.classification, r.confidence, None) ]
  }

  function Conclude(full: bool, d: Doc, pin: Pin, r: ScoreResult, explanation: string): Commit {
    var o := OutcomeOf(pin, r, explanation);
    Commit(d.(result := Some(o), status := if r.errorReview then ErrorReview else AwaitingDecision),
           SubmitEvents(full, r, o))
  }

  function Submit(co: Coercions, full: bool, d: Doc, explanation: string): Step {
    if d.status != IntakeComplete then Err(MissingFacts)
    else if d.pin.None? then Err(Conflict)
    else
      var pin := d.pin.value;
      if MissingRequired(pin.required, FactsOf(d.facts)) != [] then Err(MissingFacts)
      else Ok(Conclude(full, d, pin, Score(co, pin, d.facts), explanation))
  }

  /** `routing` is the tenant's escalation feature, `candidates` the reviewers who may receive this assessment. */
  datatype Ruling = Ruling(
    decision: Decision, reviewer: Option<string>, routing: bool, candidates: set<string>)

  /** The reason as it is stored; the audit log has it as it was given. */
  function Trimmed(co: Coercions, decision: Decision): Decision {
    decision.(reason := if decision.reason.Some? then Some(co.trim(decision.reason.value)) else None)
  }

  function Decide(co: Coercions, full: bool, d: Doc, r: Ruling): Step {
    var kind := r.decision.kind;
    if !(d.status.AwaitingDecision? || d.status.Escalated? || d.status.ErrorReview?) then Err(Conflict)
    else if d.status.ErrorReview? && kind.Accept? then Err(DecisionRequired)
    else if kind.Escalate? && r.reviewer.Some? && !r.routing then Err(FeatureDisabled)
    else if kind.Escalate? && r.reviewer.Some? && r.reviewer.value !in r.candidates then Err(Invalid)
    else
      var target := if kind.Escalate? then r.reviewer else None;
      var decided :=
        d.(decision := Some(Trimmed(co, r.decision)), status := if kind.Escalate? then Escalated else Closed,
                        escalatedTo := if kind.Escalate? then r.reviewer else d.escalatedTo);
      Ok(Commit(decided,
        [DecisionRecorded(kind, r.decision.overriddenTo, target, if full then Some(r.decision.reason) else None)]))
  }
}
