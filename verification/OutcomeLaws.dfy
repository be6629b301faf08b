/**
 * What submitting and deciding leave behind (src/modules/assessments/service.ts:533-603, 606-644), in terms of the
 * document, its pinned content and the facts: the score, the classification and what it rests on, the confidence, the
 * recommended action, the decision, and the events written.
 */
module OutcomeLaws {
  import opened Prelude
  import opened Conditions
  import opened Branching
  import opened Sorting
  import opened RuleEngine
  import opened Scoring
  import opened Intake
  import opened IntakeRuns
  import opened AnswerLaws

  // ----- how far the facts can be trusted

  function IsBlank(v: Value): bool {
    v == Null || v == Str("")
  }

  /** How many facts say something, and what their confidences add up to. */
  function Telling(facts: seq<Fact>): nat {
    if facts == [] then 0
    else Telling(facts[..|facts| - 1]) + if IsBlank(facts[|facts| - 1].value) then 0 else 1
  }

  function Trusted(facts: seq<Fact>): real {
    if facts == [] then 0.0
    else
      var f := facts[|facts| - 1];
      Trusted(facts[..|facts| - 1]) + if IsBlank(f.value) then 0.0 else f.confidence
  }

  lemma {:induction false} ValuesOf(facts: seq<Fact>, f: Fact)
    requires UniqueFacts(facts) && f in facts
    ensures f.key in FactsOf(facts) && FactsOf(facts)[f.key] == f.value
    ensures f.key in ConfidencesOf(facts) && ConfidencesOf(facts)[f.key] == f.confidence
  {
    var n := |facts| - 1;
    assert facts == facts[..n] + [facts[n]];
    if f != facts[n] {
      ValuesOf(facts[..n], f);
    }
  }

  lemma {:induction false} TrustMeans(facts: seq<Fact>, n: nat)
    requires UniqueFacts(facts) && n <= |facts|
    ensures Present(FactKeys(facts[..n]), FactsOf(facts)) == Telling(facts[..n])
    ensures Trust(FactKeys(facts[..n]), FactsOf(facts), ConfidencesOf(facts)) == Trusted(facts[..n])
  {
    if n > 0 {
      TrustMeans(facts, n - 1);
      ValuesOf(facts, facts[n - 1]);
      assert facts[..n][..n - 1] == facts[..n - 1];
      assert FactKeys(facts[..n])[..n - 1] == FactKeys(facts[..n - 1]);
    }
  }

  /**
   * `c` is a confidence in the facts: seven tenths for the share of the required facts that say something, and three
   * tenths for the mean confidence of the facts that do; as a whole percentage.
   */
  ghost predicate Confident(pin: Pin, facts: seq<Fact>, c: int) {
    exists coverage, mean ::
      && IsShare(Present(pin.required, FactsOf(facts)) as real, |pin.required| as real, coverage, 1.0)
      && IsShare(Trusted(facts), Telling(facts) as real, mean, 0.0)
      && Weighed(coverage, mean, c)
  }

  ghost predicate Weighed(coverage: real, mean: real, c: int) {
    c as real - 0.5 <= (coverage * 0.7 + mean * 0.3) * 100.0 < c as real + 0.5
  }

  lemma ConfidentMeans(pin: Pin, facts: seq<Fact>)
    requires UniqueFacts(facts)
    ensures Confident(pin, facts,
            ComputeConfidence(FactKeys(facts), FactsOf(facts), pin.required, ConfidencesOf(facts)))
  {
    var coverage, mean := ConfidenceMeans(FactKeys(facts), FactsOf(facts), pin.required, ConfidencesOf(facts));
    assert Weighed(coverage, mean,
           ComputeConfidence(FactKeys(facts), FactsOf(facts), pin.required, ConfidencesOf(facts)));
    TrustMeans(facts, |facts|);
    assert facts[..|facts|] == facts;
  }

  // ----- the outcome of a submission

  ghost predicate RuleFires(co: Coercions, pin: Pin, facts: Facts) {
    exists r :: r in pin.rules && Matches(co.norm, r.trigger, facts)
  }

  /** The score and its band, from the facts alone. */
  ghost predicate Graded(co: Coercions, pin: Pin, facts: Facts, o: Outcome) {
    && 0 <= o.score <= 100 && SumsTo(o.factors, o.score)
    && (forall k: FactorKey :: Earned(co.norm, pin.matrix.factors.At(k), facts, o.factors.At(k)))
    && InBand(pin.matrix.thresholds.At(o.computedClassification), o.score)
  }

  /** A rule that fires decides the classification, the best one and of equals the first; else the band of the score. */
  ghost predicate Classified(co: Coercions, pin: Pin, facts: Facts, o: Outcome) {
    && (o.ruleDriven <==> RuleFires(co, pin, facts))
    && (forall r :: Best(co.norm, pin.rules, facts, r) ==> o.classification == r.forcedClassification)
    && (o.ruleDriven ==> exists i: nat :: FirstBest(co.norm, pin.rules, facts, i) && o.ruleKey == Some(pin.rules[i].key)
                                          && o.classification == pin.rules[i].forcedClassification)
    && (!o.ruleDriven ==> o.ruleKey == None && InBand(pin.matrix.thresholds.At(o.classification), o.score))
  }

  ghost predicate ForcesAction(co: Coercions, pin: Pin, facts: Facts, i: nat, action: string) {
    FirstBest(co.norm, pin.rules, facts, i) && pin.rules[i].forcedAction == Some(action)
  }

  /** Below the bound a professional is recommended; else what the deciding rule says; else what the scenario says. */
  ghost predicate Advises(co: Coercions, pin: Pin, facts: Facts, o: Outcome) {
    if o.confidence as real < pin.matrix.professionalConsultBelow then
      o.professionalConsult && o.recommendedAction == "Further Professional Risk Guidance Needed"
    else
      && !o.professionalConsult
      && (forall i: nat, a :: ForcesAction(co, pin, facts, i, a) ==> o.recommendedAction == a)
      && ((forall i: nat, a :: !ForcesAction(co, pin, facts, i, a)) ==>
            o.recommendedAction
            == if o.classification in pin.actions then pin.actions[o.classification] else "Manage the Risk")
  }

  /** The rules that fired, best first. */
  ghost predicate Fired(co: Coercions, pin: Pin, facts: Facts, fired: seq<Rule>) {
    && Sorted(Precedes, fired) && |fired| == |Filter((r: Rule) => Matches(co.norm, r.trigger, facts), pin.rules)|
    && forall r :: r in fired <==> r in pin.rules && Matches(co.norm, r.trigger, facts)
  }

  /**
   * The three events of a submission; only full auditing tells more than the score, the classification, the confidence.
   */
  function SubmissionEvents(full: bool, fired: seq<Rule>, o: Outcome): seq<Event> {
    [ RulesEvaluated(if full then Some(fired) else None, if full then o.ruleKey else None),
      Scored(o.score, if full then Some(o.computedClassification) else None,
             if full then None else Some(o.classification), if full then Some(o.factors) else None),
      Recommended(o.classification, o.confidence,
                  if full then Some(Prose(o.ruleDriven, o.recommendedAction, o.explanation)) else None) ]
  }

  ghost predicate Submitted(co: Coercions, full: bool, d: Doc, pin: Pin, explanation: string, c: Commit) {
    && c.doc.result.Some?
    && var o, facts := c.doc.result.value, FactsOf(d.facts);
       && Graded(co, pin, facts, o) && Classified(co, pin, facts, o)
       && Confident(pin, d.facts, o.confidence) && Advises(co, pin, facts, o)
       && (o.mandatoryReview <==> o.confidence as real < pin.matrix.mandatoryReviewBelow)
          && o.explanation == explanation
       && c.doc == d.(result := Some(o),
                      status := if o.score == 0 && !RuleFires(co, pin, facts) then ErrorReview else AwaitingDecision)
       && exists fired :: Fired(co, pin, facts, fired) && c.events == SubmissionEvents(full, fired, o)
  }

  lemma FirstBestIsOne(norm: Reading, rules: seq<Rule>, facts: Facts, i: nat, j: nat)
    requires FirstBest(norm, rules, facts, i) && FirstBest(norm, rules, facts, j)
    ensures i == j
  {}

  lemma GradedMeans(co: Coercions, pin: Pin, d: Doc, explanation: string)
    requires UniqueFacts(d.facts)
    ensures var o := OutcomeOf(pin, Score(co, pin, d.facts), explanation);
            Graded(co, pin, FactsOf(d.facts), o) && Confident(pin, d.facts, o.confidence)
  {
    var facts := FactsOf(d.facts);
    SimulateMeans(co.norm, pin.matrix, pin.rules, FactKeys(d.facts), facts, pin.required, ConfidencesOf(d.facts));
    forall k: FactorKey
      ensures Earned(co.norm, pin.matrix.factors.At(k), facts, TraceOf(co.norm, pin.matrix.factors.At(k), facts))
    {
      assert ValidFactor(pin.matrix.factors.At(k));
      TraceMeans(co.norm, pin.matrix.factors.At(k), facts);
    }
    ConfidentMeans(pin, d.facts);
  }

  lemma ClassifiedMeans(co: Coercions, pin: Pin, d: Doc, explanation: string)
    ensures Classified(co, pin, FactsOf(d.facts), OutcomeOf(pin, Score(co, pin, d.facts), explanation))
  {
    var facts := FactsOf(d.facts);
    SimulateMeans(co.norm, pin.matrix, pin.rules, FactKeys(d.facts), facts, pin.required, ConfidencesOf(d.facts));
    if Evaluate(co.norm, pin.rules, facts).Some? {
      var i := WinnerIsFirstBest(co.norm, pin.rules, facts);
    }
  }

  lemma AdviceMeans(co: Coercions, pin: Pin, d: Doc, explanation: string)
    ensures Advises(co, pin, FactsOf(d.facts), OutcomeOf(pin, Score(co, pin, d.facts), explanation))
  {
    var facts := FactsOf(d.facts);
    var rule := Evaluate(co.norm, pin.rules, facts);
    assert Score(co, pin, d.facts).rule == rule;
    SimulateMeans(co.norm, pin.matrix, pin.rules, FactKeys(d.facts), facts, pin.required, ConfidencesOf(d.facts));
    if rule.Some? {
      var k := WinnerIsFirstBest(co.norm, pin.rules, facts);
      forall i: nat | FirstBest(co.norm, pin.rules, facts, i) ensures i == k {
        FirstBestIsOne(co.norm, pin.rules, facts, i, k);
      }
      if pin.rules[k].forcedAction.Some? {
        assert ForcesAction(co, pin, facts, k, pin.rules[k].forcedAction.value);
      }
    } else {
      NothingFires(co.norm, pin.rules, facts);
    }
  }

  lemma FiringIsFired(co: Coercions, pin: Pin, facts: Facts)
    ensures Fired(co, pin, facts, Sort(Precedes, Filter((r: Rule) => Matches(co.norm, r.trigger, facts), pin.rules)))
  {
    var p := (r: Rule) => Matches(co.norm, r.trigger, facts);
    var firing := Filter(p, pin.rules);
    var fired := Sort(Precedes, firing);
    PrecedesIsAnOrder();
    SortSorts(Precedes, firing);
    FilterMembers(p, pin.rules);
    SameElements(fired, firing);
    assert |multiset(fired)| == |multiset(firing)|;
  }

  lemma FiredMeans(co: Coercions, pin: Pin, facts: Facts)
    ensures var e := Evaluate(co.norm, pin.rules, facts);
            Fired(co, pin, facts, if e.Some? then e.value.fired else [])
  {
    SameFilter(Fires(co.norm, facts), (r: Rule) => Matches(co.norm, r.trigger, facts), pin.rules);
    FiringIsFired(co, pin, facts);
  }

  lemma SubmitOutcome(co: Coercions, full: bool, d: Doc, explanation: string)
    requires Submit(co, full, d, explanation).Ok? && UniqueFacts(d.facts)
    ensures Submitted(co, full, d, d.pin.value, explanation, Submit(co, full, d, explanation).value)
  {
    var pin, facts := d.pin.value, FactsOf(d.facts);
    var r := Score(co, pin, d.facts);
    var e := Evaluate(co.norm, pin.rules, facts);
    var fired := if e.Some? then e.value.fired else [];
    SimulateMeans(co.norm, pin.matrix, pin.rules, FactKeys(d.facts), facts, pin.required, ConfidencesOf(d.facts));
    GradedMeans(co, pin, d, explanation);
    ClassifiedMeans(co, pin, d, explanation);
    AdviceMeans(co, pin, d, explanation);
    FiredMeans(co, pin, facts);
    assert Submit(co, full, d, explanation).value.events
           == SubmissionEvents(full, fired, OutcomeOf(pin, r, explanation));
  }

  /**
   * Submitting succeeds exactly when the intake is complete, something is pinned and every required fact is there; what
   * it then stores is what the pinned rules and matrix make of the facts, and nothing else changes.
   */
  lemma SubmitMeans(co: Coercions, full: bool, d: Doc, explanation: string)
    requires UniqueFacts(d.facts)
    ensures var ready := d.pin.Some? && forall k :: k in d.pin.value.required ==> Captured(FactsOf(d.facts), k);
            match Submit(co, full, d, explanation)
            case Ok(c) =>
              d.status == IntakeComplete && ready && Submitted(co, full, d, d.pin.value, explanation, c)
            case Err(e) =>
              if d.status != IntakeComplete || d.pin.Some? then e == MissingFacts
                && !(d.status == IntakeComplete && ready)
              else e == Conflict
  {
    if d.pin.Some? {
      MissingMembers(d.pin.value.required, FactsOf(d.facts));
      var missing := MissingRequired(d.pin.value.required, FactsOf(d.facts));
      if missing != [] {
        assert missing[0] in missing;
      }
    }
    if Submit(co, full, d, explanation).Ok? {
      SubmitOutcome(co, full, d, explanation);
    }
  }

  /** So it is for every submission of every run. */
  lemma SubmissionsOfRuns(co: Coercions, fullAtStart: bool, o: Opening, calls: seq<Call>, full: bool,
                          explanation: string)
    requires Launch(co, fullAtStart, o).Ok?
    ensures var d := After(co, fullAtStart, o, calls).doc;
            Submit(co, full, d, explanation).Ok? ==>
              Submitted(co, full, d, d.pin.value, explanation, Submit(co, full, d, explanation).value)
  {
    RunsKeepInv(co, fullAtStart, o, calls);
    if Submit(co, full, After(co, fullAtStart, o, calls).doc, explanation).Ok? {
      SubmitOutcome(co, full, After(co, fullAtStart, o, calls).doc, explanation);
    }
  }

  // ----- the human decision

  /** A reviewer is named for the escalation. */
  predicate NamesReviewer(r: Ruling) {
    r.decision.kind == Escalate && r.reviewer.Some?
  }

  /** Only what has a result and is not closed can be decided, a zero score not by accepting it. */
  ghost predicate MayDecide(d: Doc, r: Ruling) {
    && (d.status == AwaitingDecision || d.status == Escalated || (d.status == ErrorReview && r.decision.kind != Accept))
    && (NamesReviewer(r) ==> r.routing && r.reviewer.value in r.candidates)
  }

  /** The document with the decision stored, its reason trimmed, and the one event. */
  ghost predicate Decided(co: Coercions, full: bool, d: Doc, r: Ruling, c: Commit) {
    && c.doc == d.(decision := c.doc.decision, status := c.doc.status, escalatedTo := c.doc.escalatedTo)
    && c.doc.decision.Some?
    && c.doc.decision.value.kind == r.decision.kind && c.doc.decision.value.overriddenTo == r.decision.overriddenTo
    && (r.decision.reason == None ==> c.doc.decision.value.reason == None)
    && (forall why :: r.decision.reason == Some(why) ==> c.doc.decision.value.reason == Some(co.trim(why)))
    && (if r.decision.kind == Escalate then c.doc.status == Escalated && c.doc.escalatedTo == r.reviewer
        else c.doc.status == Closed && c.doc.escalatedTo == d.escalatedTo)
    && c.events == [DecisionRecorded(r.decision.kind, r.decision.overriddenTo,
                                     if NamesReviewer(r) then r.reviewer else None,
                                     if full then Some(r.decision.reason) else None)]
  }

  lemma DecideMeans(co: Coercions, full: bool, d: Doc, r: Ruling)
    ensures match Decide(co, full, d, r)
            case Ok(c) => MayDecide(d, r) && Decided(co, full, d, r, c)
            case Err(e) =>
              && !MayDecide(d, r)
              && (e == Conflict <==> d.status in {InProgress, IntakeComplete, Closed})
              && (e == DecisionRequired <==> d.status == ErrorReview && r.decision.kind == Accept)
              && (e == Invalid ==> NamesReviewer(r) && r.routing && r.reviewer.value !in r.candidates)
              && (e == FeatureDisabled ==> NamesReviewer(r) && !r.routing)
              && e != MissingFacts
  {}

  // ----- the beginning of an intake

  /**
   * The questions of a selection begin: its content is pinned, its flow is queued in order, and the intake moves on.
   */
  ghost predicate Begun(co: Coercions, d: Doc, sel: Selection, e: Doc) {
    exists queue: seq<string> ::
      && |queue| == |sel.pin.flow| && (forall i :: 0 <= i < |queue| ==> queue[i] == sel.pin.flow[i].questionKey)
      && MovedOn(co, sel.pin,
                 d.(scenarioKey := Some(sel.scenarioKey), scenarioSource := Some(sel.source), pin := Some(sel.pin),
                    queue := queue), e)
  }

  /** The selection is for this persona and has questions to ask. */
  predicate Fits(sel: Option<Selection>, personaKey: Option<string>) {
    sel.Some? && personaKey == Some(sel.value.personaKey) && sel.value.pin.questions != []
  }

  /** What follows a persona: without a text a description is asked for; else the questions begin, if they can. */
  ghost predicate SetUp(co: Coercions, d: Doc, sel: Option<Selection>, before: seq<Event>, s: Step) {
    if d.openingText == None || d.openingText == Some("") then s == Ok(Commit(d.(phase := DescribePhase), before))
    else if Fits(sel, d.personaKey) then
      && s.Ok? && Begun(co, d, sel.value, s.value.doc)
      && s.value.events == before + [ScenarioSelected(sel.value.scenarioKey, sel.value.source)]
    else s == Err(Conflict)
  }

  lemma BeginMeans(co: Coercions, d: Doc, sel: Selection)
    ensures match Begin(co, d, sel)
            case Ok(c) => && sel.pin.questions != [] && Begun(co, d, sel, c.doc)
                          && c.events == [ScenarioSelected(sel.scenarioKey, sel.source)]
            case Err(e) => sel.pin.questions == [] && e == Conflict
  {
    AdvanceMovesOn(co, sel.pin, Pinned(d, sel));
    assert forall i :: 0 <= i < |sel.pin.flow| ==> Pinned(d, sel).queue[i] == sel.pin.flow[i].questionKey;
  }

  lemma AfterPersonaMeans(co: Coercions, d: Doc, sel: Option<Selection>, before: seq<Event>)
    ensures SetUp(co, d, sel, before, Then(before, AfterPersona(co, d, sel)))
  {
    assert before + [] == before;
    if sel.Some? {
      BeginMeans(co, d, sel.value);
    }
  }

  /** The document an assessment begins with. */
  function Fresh(text: Option<string>, personaKey: Option<string>, source: Option<PersonaSource>): Doc {
    Doc(InProgress, PersonaPhase, text, personaKey, source, None, None, None, [], [], [], [], None, None, None, None,
      None)
  }

  /** A persona named by the caller counts at once, one that the model proposed waits for a choice. */
  lemma StartMeans(co: Coercions, full: bool, text: Option<string>, chosen: Option<string>, proposed: Option<string>,
                   sel: Option<Selection>)
    ensures var s := Start(co, full, text, chosen, proposed, sel);
            var source := if chosen.Some? then Some(ByUser) else if proposed.Some? then Some(ByAi) else None;
            var key := if chosen.Some? then chosen else proposed;
            var started := [Started(key, if full then source else None, if full then text else None)];
            if chosen.Some? then SetUp(co, Fresh(text, key, source), sel, started, s)
            else s == Ok(Commit(Fresh(text, key, source), started))
  {
    if chosen.Some? {
      AfterPersonaMeans(co, Fresh(text, chosen, Some(ByUser)), sel,
                        [Started(chosen, if full then Some(ByUser) else None, if full then text else None)]);
    }
  }

  lemma SetPersonaMeans(co: Coercions, d: Doc, key: string, sel: Option<Selection>)
    ensures if d.phase in {PersonaPhase, DescribePhase} then
              SetUp(co, d.(personaKey := Some(key), personaSource := Some(ByUser)), sel, [PersonaSet(key)],
                    SetPersona(co, d, key, sel))
            else SetPersona(co, d, key, sel) == Err(Conflict)
  {
    AfterPersonaMeans(co, d.(personaKey := Some(key), personaSource := Some(ByUser)), sel, [PersonaSet(key)]);
  }

  lemma DescribeMeans(co: Coercions, d: Doc, text: string, sel: Option<Selection>)
    ensures var asked := d.status == InProgress && d.phase == DescribePhase;
            match Describe(co, d, text, sel)
            case Ok(c) =>
              && asked && |text| >= 10 && Fits(sel, d.personaKey)
              && Begun(co, d.(openingText := Some(text)), sel.value, c.doc)
              && c.events == [ScenarioSelected(sel.value.scenarioKey, sel.value.source)]
            case Err(e) =>
              && !(asked && |text| >= 10 && Fits(sel, d.personaKey))
              && e == if asked && |text| < 10 then Invalid else Conflict
  {
    if sel.Some? {
      BeginMeans(co, d.(openingText := Some(text)), sel.value);
    }
  }

  /** A message names a persona with the value it carries, or else with its text. */
  predicate NamesPersona(co: Coercions, m: Message, key: string) {
    && (m.value.Some? ==> key == co.show(m.value.value)) && (m.value.None? && m.text.Some? ==> key == m.text.value)
    && (m.value.None? && m.text.None? ==> key == "")
  }

  /** It describes the incident with its text, or else with its value, without the blanks around. */
  predicate GivesDescription(co: Coercions, m: Message, text: string) {
    && (m.text.Some? ==> text == co.trim(m.text.value))
    && (m.text.None? && m.value.Some? ==> text == co.trim(co.show(m.value.value)))
    && (m.text.None? && m.value.None? ==> text == co.trim(""))
  }

  /** The choice of a persona needs an active one, and where there is a text a scenario for both. */
  lemma PersonaMessage(co: Coercions, full: bool, d: Doc, m: Message, x: Extraction, dir: Directory, key: string)
    requires d.status == InProgress && d.phase == PersonaPhase && NamesPersona(co, m, key)
    ensures var s := Receive(co, full, d, m, x, dir);
            if key !in dir.active then s == Err(Invalid)
            else if d.openingText == None || d.openingText == Some("") then s == SetPersona(co, d, key, None)
            else if dir.select(key, d.openingText.value).None? then s == Err(Conflict)
            else s == SetPersona(co, d, key, dir.select(key, d.openingText.value))
  {}

  /** A description is long enough, and selects a scenario for the persona, which is still active. */
  lemma DescribingMessage(co: Coercions, full: bool, d: Doc, m: Message, x: Extraction, dir: Directory, text: string)
    requires d.status == InProgress && d.phase == DescribePhase && GivesDescription(co, m, text)
    ensures var s := Receive(co, full, d, m, x, dir);
            if |text| < 10 then s == Err(Invalid)
            else if d.personaKey.None? || d.personaKey.value !in dir.active then s == Err(Conflict)
            else if dir.select(d.personaKey.value, text).None? then s == Err(Conflict)
            else s == Describe(co, d, text, dir.select(d.personaKey.value, text))
  {}

  /** Every other message is an answer, and once the intake is over none is taken. */
  lemma AnsweringMessage(co: Coercions, full: bool, d: Doc, m: Message, x: Extraction, dir: Directory)
    ensures d.status != InProgress ==> Receive(co, full, d, m, x, dir) == Err(Conflict)
    ensures d.status == InProgress && d.phase in {QuestionsPhase, DonePhase}
            ==> Receive(co, full, d, m, x, dir) == Answer(co, full, d, m, x)
  {}
}
