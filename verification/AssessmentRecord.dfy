/**
 * The stored assessment, changed field by field as src/modules/assessments/service.ts does, each operation proved
 * against its function in `Intake`. A refused operation restores the record: the transaction rolls back.
 */
module AssessmentRecord {
  import opened Prelude
  import opened Conditions
  import opened Branching
  import opened RuleEngine
  import opened Scoring
  import opened Intake
  import A = AnswerLaws
  import I = IntakeRuns
  import O = OutcomeLaws

  function Refusal(step: Intake.Step): Option<Failure> {
    match step
    case Ok(_) => None
    case Err(e) => Some(e)
  }

  /** The document a committed step leaves behind, and the log with the step's events at its end. */
  function Logged(log: seq<Event>, step: Intake.Step): Commit
    requires step.Ok?
  {
    Commit(step.value.doc, log + step.value.events)
  }

  /** The document and the log are left as by an answer taken on the document before. */
  ghost predicate AnswerTaken(co: Coercions, full: bool, d: Doc, before: seq<Event>, m: Message, x: Extraction,
                              c: Commit) {
    exists events :: c.events == before + events && A.Taken(co, full, d, m, x, Commit(c.doc, events))
  }

  ghost predicate SubmissionStored(co: Coercions, full: bool, d: Doc, before: seq<Event>, explanation: string,
                                   c: Commit) {
    exists events :: c.events == before + events && d.pin.Some?
                     && O.Submitted(co, full, d, d.pin.value, explanation, Commit(c.doc, events))
  }

  lemma AnswerIsTaken(co: Coercions, full: bool, d: Doc, log: seq<Event>, m: Message, x: Extraction)
    ensures var step := Answer(co, full, d, m, x);
            I.UniqueFacts(d.facts) && step.Ok? ==> AnswerTaken(co, full, d, log, m, x, Logged(log, step))
  {
    if I.UniqueFacts(d.facts) {
      A.AnswerMeans(co, full, d, m, x);
    }
  }

  lemma SubmissionIsStored(co: Coercions, full: bool, d: Doc, log: seq<Event>, explanation: string)
    ensures var step := Submit(co, full, d, explanation);
            I.UniqueFacts(d.facts) && step.Ok? ==> SubmissionStored(co, full, d, log, explanation, Logged(log, step))
  {
    if I.UniqueFacts(d.facts) && Submit(co, full, d, explanation).Ok? {
      O.SubmitOutcome(co, full, d, explanation);
    }
  }

  method BuildFacts(facts: seq<Fact>) returns (m: Facts)
    ensures m == FactsOf(facts)
  {
    m := map[];
    for i := 0 to |facts|
      invariant m == FactsOf(facts[..i])
    {
      assert facts[..i + 1][..i] == facts[..i];
      m := m[facts[i].key := facts[i].value];
    }
    assert facts[..|facts|] == facts;
  }

  method FindReask(questions: seq<Question>, asked: seq<string>, missing: seq<string>) returns (q: Option<Question>)
    ensures q == Reask(questions, asked, missing)
  {
    for i := 0 to |missing|
      invariant Reask(questions, asked, missing) == Reask(questions, asked, missing[i..])
    {
      assert missing[i..][1..] == missing[i + 1..];
      var producer := Producer(questions, missing[i]);
      if producer.Some? && multiset(asked)[producer.value.key] < 2 {
        return producer;
      }
    }
    return None;
  }

  method ChooseNext(co: Coercions, content: Pin, known: Facts, c: Cursor) returns (next: Cursor)
    ensures next == NextStop(co, content, known, c)
  {
    var question, rest := PopNext(co.norm, content.flow, content.questions, c.asked, known, c.queue);
    next := c.(queue := rest);
    if question.Some? {
      next := next.(current := Some(question.value.key), phase := QuestionsPhase);
    } else {
      var again := FindReask(content.questions, c.asked, MissingRequired(content.required, known));
      if again.Some? {
        next := next.(current := Some(again.value.key), asked := Without(c.asked, again.value.key));
      } else {
        next := next.(current := None, phase := DonePhase, status := IntakeComplete);
      }
    }
  }

  /** Overwriting at the first fact of the same key, or appending when there is none, is `SetFact`. */
  lemma {:induction false} SetFactAt(known: seq<Fact>, i: nat, f: Fact)
    requires i <= |known| && forall j | 0 <= j < i :: known[j].key != f.key
    requires i < |known| ==> known[i].key == f.key
    ensures SetFact(known, f) == if i < |known| then known[i := f] else known + [f]
  {
    if i > 0 {
      SetFactAt(known[1..], i - 1, f);
      assert known == [known[0]] + known[1..];
    }
  }

  class Assessment {
    var status: Status
    var phase: Phase
    var openingText: Option<string>
    var personaKey: Option<string>
    var personaSource: Option<PersonaSource>
    var scenarioKey: Option<string>
    var scenarioSource: Option<ScenarioSource>
    var pin: Option<Pin>
    var answers: seq<AnswerRecord>
    var facts: seq<Fact>
    var asked: seq<string>
    var queue: seq<string>
    var current: Option<string>
    var clarification: Option<string>
    var result: Option<Outcome>
    var decision: Option<Decision>
    var escalatedTo: Option<string>
    var log: seq<Event>

    function View(): Doc
      reads this
    {
      Doc(status, phase, openingText, personaKey, personaSource, scenarioKey, scenarioSource, pin,
          answers, facts, asked, queue, current, clarification, result, decision, escalatedTo)
    }

    constructor (text: Option<string>)
      ensures View() == NewDoc.(openingText := text) && log == []
    {
      status, phase, openingText := InProgress, PersonaPhase, text;
      personaKey, personaSource, scenarioKey, scenarioSource, pin := None, None, None, None, None;
      answers, facts, asked, queue := [], [], [], [];
      current, clarification, result, decision, escalatedTo := None, None, None, None, None;
      log := [];
    }

    method StoreFact(f: Fact)
      modifies this`facts
      ensures facts == SetFact(old(facts), f)
    {
      var known := facts;
      var i := 0;
      while i < |known| && known[i].key != f.key
        invariant 0 <= i <= |known| && forall j | 0 <= j < i :: known[j].key != f.key
      {
        i := i + 1;
      }
      SetFactAt(known, i, f);
      facts := if i < |known| then known[i := f] else known + [f];
    }

    method Place(c: Cursor)
      modifies this`queue, this`current, this`phase, this`asked, this`status
      ensures View() == Placed(old(View()), c)
    {
      queue, current, asked, phase, status := c.queue, c.current, c.asked, c.phase, c.status;
    }

    /** Chooses the next question, asks the producer of a missing fact once more, or completes the intake. */
    method Step(co: Coercions, content: Pin)
      modifies this`queue, this`current, this`phase, this`asked, this`status
      ensures View() == Advance(co, content, old(View()))
    {
      var known := BuildFacts(facts);
      var next := ChooseNext(co, content, known, Cursor(queue, current, asked, phase, status));
      Place(next);
    }

    method PinScenario(sel: Selection)
      modifies this`scenarioKey, this`scenarioSource, this`pin, this`queue
      ensures View() == Pinned(old(View()), sel)
    {
      scenarioKey, scenarioSource, pin := Some(sel.scenarioKey), Some(sel.source), Some(sel.pin);
      queue := InitialQueue(sel.pin.flow);
    }

    method SelectScenarioAndBegin(co: Coercions, sel: Selection) returns (failure: Option<Failure>)
      modifies this
      ensures failure == Refusal(Begin(co, old(View()), sel))
      ensures failure.Some? ==> unchanged(this)
      ensures failure.None? ==> Commit(View(), log) == Logged(old(log), Begin(co, old(View()), sel))
    {
      if sel.pin.questions == [] {
        return Some(Conflict);
      }
      PinScenario(sel);
      Step(co, sel.pin);
      log := log + [ScenarioSelected(sel.scenarioKey, sel.source)];
      failure := None;
    }

    method ContinueAfterPersona(co: Coercions, sel: Option<Selection>) returns (failure: Option<Failure>)
      modifies this
      ensures failure == Refusal(AfterPersona(co, old(View()), sel))
      ensures failure.Some? ==> unchanged(this)
      ensures failure.None? ==> Commit(View(), log) == Logged(old(log), AfterPersona(co, old(View()), sel))
    {
      if !HasText(openingText) {
        phase := DescribePhase;
        return None;
      }
      if sel.None? || Some(sel.value.personaKey) != personaKey {
        return Some(Conflict);
      }
      failure := SelectScenarioAndBegin(co, sel.value);
    }

    method Open(co: Coercions, full: bool, chosen: Option<string>, proposed: Option<string>, sel: Option<Selection>)
      returns (failure: Option<Failure>)
      requires View() == NewDoc.(openingText := openingText) && log == []
      modifies this
      ensures failure == Refusal(Start(co, full, old(openingText), chosen, proposed, sel))
      ensures failure.Some? ==> unchanged(this)
      ensures failure.None?
              ==> Commit(View(), log) == Logged([], Start(co, full, old(openingText), chosen, proposed, sel))
    {
      if chosen.Some? {
        personaKey, personaSource := chosen, Some(ByUser);
      } else if proposed.Some? {
        personaKey, personaSource := proposed, Some(ByAi);
      }
      log := [if full then Started(personaKey, personaSource, openingText) else Started(personaKey, None, None)];
      failure := None;
      if chosen.Some? {
        failure := ContinueAfterPersona(co, sel);
        if failure.Some? {
          personaKey, personaSource, log := None, None, [];
        }
      }
    }

    method ChoosePersona(co: Coercions, key: string, sel: Option<Selection>) returns (failure: Option<Failure>)
      modifies this
      ensures failure == Refusal(SetPersona(co, old(View()), key, sel))
      ensures failure.Some? ==> unchanged(this)
      ensures failure.None? ==> Commit(View(), log) == Logged(old(log), SetPersona(co, old(View()), key, sel))
    {
      if phase.QuestionsPhase? || phase.DonePhase? {
        return Some(Conflict);
      }
      var savedKey, savedSource, savedLog := personaKey, personaSource, log;
      personaKey, personaSource := Some(key), Some(ByUser);
      log := log + [PersonaSet(key)];
      failure := ContinueAfterPersona(co, sel);
      if failure.Some? {
        personaKey, personaSource, log := savedKey, savedSource, savedLog;
      }
    }

    method DescribeIncident(co: Coercions, text: string, sel: Option<Selection>) returns (failure: Option<Failure>)
      modifies this
      ensures failure == Refusal(Describe(co, old(View()), text, sel))
      ensures failure.Some? ==> unchanged(this)
      ensures failure.None? ==> Commit(View(), log) == Logged(old(log), Describe(co, old(View()), text, sel))
    {
      if status != InProgress || phase != DescribePhase { return Some(Conflict); }
      if |text| < MIN_DESCRIPTION { return Some(Invalid); }
      if sel.None? || Some(sel.value.personaKey) != personaKey { return Some(Conflict); }
      var saved := openingText;
      openingText := Some(text);
      failure := SelectScenarioAndBegin(co, sel.value);
      if failure.Some? {
        openingText := saved;
      }
    }

    /** Records the side facts an answer clearly stated; they only fill gaps. */
    method RecordSideFacts(co: Coercions, content: Pin, q: Question, xs: seq<ExtractedFact>)
      modifies this`facts
      ensures facts == FillGaps(co, content, q, old(facts), xs)
    {
      for i := 0 to |xs|
        invariant FillGaps(co, content, q, old(facts), xs) == FillGaps(co, content, q, facts, xs[i..])
      {
        var x := xs[i];
        assert xs[i..][1..] == xs[i + 1..];
        if x.key == q.factKey || !Known(content, x.key) { continue; }
        if exists f :: f in facts && f.key == x.key { continue; }
        if x.confidence < LOW_CONFIDENCE || co.placeholder(x.value) { continue; }
        StoreFact(FactFor(x.key, x.value, FromAi, q.key, x.confidence));
      }
    }

    method Clarify(full: bool, m: Message, x: Extraction, q: Question)
      modifies this`answers, this`clarification, this`log
      ensures Commit(View(), log) == Logged(old(log), Ok(ClarifyStep(full, old(View()), q, m, x, facts)))
    {
      answers := answers + [AnswerRecord(q.key, m.Raw())];
      clarification := Some(if x.clarification.Some? then x.clarification.value else "Could you clarify: " + q.text);
      log := log + [AnsweredEvent(full, q, m, facts, [])];
    }

    method RecordSettled(co: Coercions, m: Message, q: Question, value: Value) returns (branched: seq<string>)
      modifies this`answers, this`clarification, this`asked, this`queue
      ensures View() == Settle(co, old(View()), q, m, facts, value)
      ensures branched == ApplyBranch(co.norm, q, value, old(queue), asked).1
    {
      answers := answers + [AnswerRecord(q.key, m.Raw())];
      clarification := None;
      asked := asked + [q.key];
      var (rest, followUps) := ApplyBranch(co.norm, q, value, queue, asked);
      queue, branched := rest, followUps;
    }

    /** After a settled answer: fire its branch, choose what comes next and write the audit event. */
    method MoveOn(co: Coercions, full: bool, m: Message, q: Question, content: Pin, value: Value)
      modifies this`answers, this`clarification, this`asked, this`queue, this`current, this`phase, this`status, this`log
      ensures Commit(View(), log)
              == Logged(old(log), Ok(SettleStep(co, full, content, old(View()), q, m, facts, value)))
    {
      var branched := RecordSettled(co, m, q, value);
      Step(co, content);
      log := log + [AnsweredEvent(full, q, m, facts, branched)];
    }

    /** Reads an answer through the model's extraction; no value means that one clarification is due. */
    method SettleExtracted(co: Coercions, m: Message, x: Extraction, q: Question, content: Pin)
      returns (value: Option<Value>)
      requires NeedsExtraction(q, m)
      modifies this`facts
      ensures Judge(co, content, old(View()), q, m, x)
              == if value.Some? then Settled(facts, value.value) else Unclear(facts)
    {
      RecordSideFacts(co, content, q, x.facts);
      var given := FindExtracted(x.facts, q.factKey);
      var coerced := if given.Some? then StructuredValue(co, q, given.value.value) else None;
      var settled := given.Some? && coerced.Some? && given.value.confidence >= SETTLE_CONFIDENCE;
      if !settled && !HasText(clarification) {
        return None;
      }
      value := Some(
        if coerced.Some? then coerced.value
        else if given.Some? then given.value.value
        else Str(co.show(m.Raw())));
      var stated := if given.Some? then given.value.confidence else 0.3;
      var confidence := if settled then stated else if stated < 0.4 then stated else 0.4;
      StoreFact(FactFor(q.factKey, value.value, FromAi, q.key, confidence));
    }

    /** The question the message answers is settled, or one clarification asked. */
    method SettleOrClarify(co: Coercions, full: bool, m: Message, x: Extraction) returns (failure: Option<Failure>)
      modifies this
      ensures failure == Refusal(Answer(co, full, old(View()), m, x))
      ensures failure.Some? ==> unchanged(this)
      ensures failure.None? ==> Commit(View(), log) == Logged(old(log), Answer(co, full, old(View()), m, x))
    {
      var pending := Pending(View(), m);
      if pending.None? { return Some(Conflict); }
      var q, content := pending.value, pin.value;
      var value: Value;
      if NeedsExtraction(q, m) {
        var read := SettleExtracted(co, m, x, q, content);
        if read.None? {
          Clarify(full, m, x, q);
          return None;
        }
        value := read.value;
      } else {
        var structured := StructuredValue(co, q, m.Raw());
        if structured.None? { return Some(Invalid); }
        value := structured.value;
        StoreFact(FactFor(q.factKey, value, FromChoice, q.key, 1.0));
      }
      MoveOn(co, full, m, q, content, value);
      failure := None;
    }

    /** One turn of the intake: refuse, ask for one clarification, or settle the answer and move on. */
    method AnswerQuestion(co: Coercions, full: bool, m: Message, x: Extraction) returns (failure: Option<Failure>)
      modifies this
      ensures failure == Refusal(Answer(co, full, old(View()), m, x))
      ensures failure.Some? ==> unchanged(this)
      ensures failure.None? ==> Commit(View(), log) == Logged(old(log), Answer(co, full, old(View()), m, x))
      ensures I.UniqueFacts(old(facts)) && failure.None?
              ==> AnswerTaken(co, full, old(View()), old(log), m, x, Commit(View(), log))
    {
      AnswerIsTaken(co, full, View(), log, m, x);
      failure := SettleOrClarify(co, full, m, x);
    }

    /** Choosing a persona that must be active; the scenario is selected beforehand when there is a text. */
    method ChooseActivePersona(co: Coercions, key: string, dir: Directory) returns (failure: Option<Failure>)
      modifies this
      ensures failure == Refusal(ChooseActive(co, old(View()), key, dir))
      ensures failure.Some? ==> unchanged(this)
      ensures failure.None? ==> Commit(View(), log) == Logged(old(log), ChooseActive(co, old(View()), key, dir))
    {
      if phase.QuestionsPhase? || phase.DonePhase? { return Some(Conflict); }
      if key !in dir.active { return Some(Invalid); }
      var sel: Option<Selection> := None;
      if HasText(openingText) {
        sel := dir.select(key, openingText.value);
        if sel.None? { return Some(Conflict); }
      }
      failure := ChoosePersona(co, key, sel);
    }

    /** One message: by the phase it chooses a persona, describes the incident, or answers the question asked. */
    method ReceiveMessage(co: Coercions, full: bool, m: Message, x: Extraction, dir: Directory)
      returns (failure: Option<Failure>)
      modifies this
      ensures failure == Refusal(Receive(co, full, old(View()), m, x, dir))
      ensures failure.Some? ==> unchanged(this)
      ensures failure.None? ==> Commit(View(), log) == Logged(old(log), Receive(co, full, old(View()), m, x, dir))
    {
      if status != InProgress { return Some(Conflict); }
      if phase == PersonaPhase {
        failure := ChooseActivePersona(co, PersonaNamed(co, m), dir);
      } else if phase == DescribePhase {
        var text := DescriptionGiven(co, m);
        if |text| < MIN_DESCRIPTION { return Some(Invalid); }
        if personaKey.None? || personaKey.value !in dir.active { return Some(Conflict); }
        var sel := dir.select(personaKey.value, text);
        if sel.None? { return Some(Conflict); }
        failure := DescribeIncident(co, text, sel);
      } else {
        failure := AnswerQuestion(co, full, m, x);
      }
    }

    method StoreResult(full: bool, content: Pin, r: ScoreResult, explanation: string)
      modifies this`result, this`status, this`log
      ensures Commit(View(), log) == Logged(old(log), Ok(Conclude(full, old(View()), content, r, explanation)))
    {
      var o := OutcomeOf(content, r, explanation);
      result := Some(o);
      status := if r.errorReview then ErrorReview else AwaitingDecision;
      log := log + SubmitEvents(full, r, o);
    }

    method SubmitResult(co: Coercions, full: bool, explanation: string) returns (failure: Option<Failure>)
      modifies this
      ensures failure == Refusal(Submit(co, full, old(View()), explanation))
      ensures failure.Some? ==> unchanged(this)
      ensures failure.None? ==> Commit(View(), log) == Logged(old(log), Submit(co, full, old(View()), explanation))
      ensures I.UniqueFacts(old(facts)) && failure.None?
              ==> SubmissionStored(co, full, old(View()), old(log), explanation, Commit(View(), log))
    {
      SubmissionIsStored(co, full, View(), log, explanation);
      if status != IntakeComplete { return Some(MissingFacts); }
      if pin.None? { return Some(Conflict); }
      var content := pin.value;
      if MissingRequired(content.required, FactsOf(facts)) != [] { return Some(MissingFacts); }
      StoreResult(full, content, Score(co, content, facts), explanation);
      failure := None;
    }

    method RecordDecision(co: Coercions, full: bool, r: Ruling) returns (failure: Option<Failure>)
      modifies this
      ensures failure == Refusal(Decide(co, full, old(View()), r))
      ensures failure.Some? ==> unchanged(this)
      ensures failure.None? ==> Commit(View(), log) == Logged(old(log), Decide(co, full, old(View()), r))
    {
      var kind := r.decision.kind;
      if !(status.AwaitingDecision? || status.Escalated? || status.ErrorReview?) { return Some(Conflict); }
      if status.ErrorReview? && kind.Accept? { return Some(DecisionRequired); }
      var target := None;
      if kind.Escalate? {
        if r.reviewer.Some? {
          if !r.routing { return Some(FeatureDisabled); }
          if r.reviewer.value !in r.candidates { return Some(Invalid); }
          target := r.reviewer;
        }
        escalatedTo := target;
        status := Escalated;
      } else {
        status := Closed;
      }
      decision := Some(Trimmed(co, r.decision));
      log := log
        + [DecisionRecorded(kind, r.decision.overriddenTo, target, if full then Some(r.decision.reason) else None)];
      failure := None;
    }
  }
}
