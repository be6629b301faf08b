/**
 * Rebuilding an assessment from its audit entries alone (src/modules/assessments/reconstruct.ts) and comparing
 * the rebuilt state with the stored document (`reconstructFromAudit`).
 */
module Replay {
  import opened Prelude
  import opened Conditions
  import opened Branching
  import opened Sorting
  import opened RuleEngine
  import opened Scoring
  import opened Intake
  import opened IntakeRuns

  datatype RebuiltStatus = SeenInProgress | SeenAwaiting | SeenEscalated | SeenClosed | SeenErrorReview | Unknown

  /** The parts a replay can find missing from the log. */
  datatype Part =
    OpeningText | AnswersPart | FactsPart | RulesPart | FactorsPart | ActionPart | ExplanationPart | ReasonPart

  /** An answer as far as the log tells it. */
  datatype RebuiltAnswer = RebuiltAnswer(questionKey: string, answer: Option<Value>)

  datatype RebuiltDecision =
    RebuiltDecision(kind: DecisionKind, overriddenTo: Option<Classification>, reason: Option<string>)

  datatype Rebuilt = Rebuilt(
    personaKey: Option<string>, personaSource: Option<PersonaSource>, openingText: Option<string>,
    scenarioKey: Option<string>, scenarioSource: Option<ScenarioSource>,
    answered: seq<RebuiltAnswer>, facts: Facts, winner: Option<string>,
    score: Option<int>, computedClassification: Option<Classification>, factors: Option<PerFactor<Trace>>,
    classification: Option<Classification>, ruleDriven: Option<bool>, confidence: Option<int>,
    recommendedAction: Option<string>, explanation: Option<string>,
    decisions: seq<RebuiltDecision>, status: RebuiltStatus, missing: set<Part>)

  const Nothing :=
    Rebuilt(None, None, None, None, None, [], map[], None, None, None, None, None, None, None, None, None,
                           [], Unknown, {})

  function NoteMissing(r: Rebuilt, absent: bool, p: Part): Rebuilt {
    if absent then r.(missing := r.missing + {p}) else r
  }

  function ReplayEvent(r: Rebuilt, e: Event): Rebuilt {
    match e
    case Started(personaKey, personaSource, openingText) =>
      var r' := r.(status := SeenInProgress, personaKey := personaKey, personaSource := personaSource);
      if openingText.Some? then r'.(openingText := openingText) else NoteMissing(r', true, OpeningText)
    case PersonaSet(chosen) => r.(personaKey := Some(chosen), personaSource := Some(ByUser))
    case ScenarioSelected(scenarioKey, source) => r.(scenarioKey := Some(scenarioKey), scenarioSource := Some(source))
    case Answered(questionKey, detail, _) =>
      var answer := if detail.Some? then Some(detail.value.answer) else None;
      var r' := r.(answered := r.answered + [RebuiltAnswer(questionKey, answer)]);
      if detail.Some? then r'.(facts := r.facts + FactsOf(detail.value.facts))
      else r'.(missing := r.missing + {AnswersPart, FactsPart})
    case RulesEvaluated(detailed, winner) =>
      if detailed.Some? then r.(winner := winner) else NoteMissing(r.(winner := None), true, RulesPart)
    case Scored(score, computed, final, factors) =>
      var r' := r.(score := Some(score), computedClassification := if computed.Some? then computed else final);
      if factors.Some? then r'.(factors := factors) else NoteMissing(r', true, FactorsPart)
    case Recommended(classification, confidence, prose) =>
      var r' := r.(classification := Some(classification), confidence := Some(confidence),
                   status := if r.score == Some(0) then SeenErrorReview else SeenAwaiting);
      if prose.Some? then
        r'.(ruleDriven := Some(prose.value.ruleDriven), recommendedAction := Some(prose.value.recommendedAction),
            explanation := Some(prose.value.explanation))
      else r'.(missing := r.missing + {ActionPart, ExplanationPart})
    case DecisionRecorded(kind, overriddenTo, _, reason) =>
      var d := RebuiltDecision(kind, overriddenTo, if reason.Some? then reason.value else None);
      NoteMissing(r.(decisions := r.decisions + [d], status := if kind.Escalate? then SeenEscalated else SeenClosed),
                  reason.None?, ReasonPart)
  }

  function Replay(log: seq<Event>): Rebuilt {
    if log == [] then Nothing else ReplayEvent(Replay(log[..|log| - 1]), log[|log| - 1])
  }

  lemma ReplayAppend(log: seq<Event>, e: Event)
    ensures Replay(log + [e]) == ReplayEvent(Replay(log), e)
  {}

  // ----- the loop over stored entries

  /** A stored entry; an action the replay does not know carries no event. */
  datatype Entry = Entry(number: nat, event: Option<Event>)

  predicate Earlier(a: Entry, b: Entry) {
    a.number < b.number
  }

  function KnownEvents(entries: seq<Entry>): seq<Event> {
    if entries == [] then []
    else
      var last := entries[|entries| - 1];
      KnownEvents(entries[..|entries| - 1]) + if last.event.Some? then [last.event.value] else []
  }

  lemma KnownAppend(entries: seq<Entry>, e: Entry)
    ensures KnownEvents(entries + [e]) == KnownEvents(entries) + if e.event.Some? then [e.event.value] else []
  {}

  lemma ReplayKnown(entries: seq<Entry>, e: Entry)
    ensures var before := Replay(KnownEvents(entries));
            Replay(KnownEvents(entries + [e])) == if e.event.Some? then ReplayEvent(before, e.event.value) else before
  {
    KnownAppend(entries, e);
    if e.event.Some? {
      ReplayAppend(KnownEvents(entries), e.event.value);
    } else {
      assert KnownEvents(entries) + [] == KnownEvents(entries);
    }
  }

  /** The replay of one entry more. */
  lemma ReplayNext(entries: seq<Entry>, i: nat)
    requires i < |entries|
    ensures var before, e := Replay(KnownEvents(entries[..i])), entries[i].event;
            Replay(KnownEvents(entries[..i + 1])) == if e.Some? then ReplayEvent(before, e.value) else before
  {
    ReplayKnown(entries[..i], entries[i]);
    assert entries[..i + 1] == entries[..i] + [entries[i]];
  }

  method Reconstruct(entries: seq<Entry>) returns (state: Rebuilt)
    ensures state == Replay(KnownEvents(Sort(Earlier, entries)))
  {
    state := Nothing;
    var sorted := Sort(Earlier, entries);
    for i := 0 to |sorted|
      invariant state == Replay(KnownEvents(sorted[..i]))
    {
      ReplayNext(sorted, i);
      if sorted[i].event.Some? {
        state := ReplayEvent(state, sorted[i].event.value);
      }
    }
    assert sorted[..|sorted|] == sorted;
  }

  /** Entries may arrive in any order: the numbering restores the log. */
  lemma OrderIsRestored(log: seq<Entry>, shuffled: seq<Entry>)
    requires forall i, j :: 0 <= i < j < |log| ==> log[i].number < log[j].number
    requires multiset(shuffled) == multiset(log)
    ensures Sort(Earlier, shuffled) == log
  {
    assert StrictWeak(Earlier);
    SortSorts(Earlier, shuffled);
    SameElements(shuffled, log);
    forall x, y | x in shuffled && y in shuffled && x != y ensures Earlier(x, y) || Earlier(y, x) {
      var i :| 0 <= i < |log| && log[i] == x;
      var j :| 0 <= j < |log| && log[j] == y;
    }
    SameElements(Sort(Earlier, shuffled), shuffled);
    SortedUnique(Earlier, Sort(Earlier, shuffled), log);
  }

  // ----- what a replay of a run's own log shows

  function KindOf(d: Option<Decision>): Option<DecisionKind> {
    if d.Some? then Some(d.value.kind) else None
  }

  function LastKind(ds: seq<RebuiltDecision>): Option<DecisionKind> {
    if ds == [] then None else Some(ds[|ds| - 1].kind)
  }

  /** The replay knows the questions answered, in order, and of each answer nothing else than what was given. */
  ghost predicate AnswersTold(full: bool, told: seq<RebuiltAnswer>, answers: seq<AnswerRecord>) {
    |told| == |answers| && forall i :: 0 <= i < |told| ==> AnswerTold(full, told[i], answers[i])
  }

  predicate AnswerTold(full: bool, told: RebuiltAnswer, a: AnswerRecord) {
    && told.questionKey == a.questionKey && (told.answer.Some? ==> told.answer.value == a.given)
    && (full ==> told.answer.Some?)
  }

  /** The status a replay can see: completion of the intake writes no event, and only the score is looked at. */
  function VisibleStatus(d: Doc): RebuiltStatus {
    match d.status
    case InProgress => SeenInProgress
    case IntakeComplete => SeenInProgress
    case AwaitingDecision => if d.result.Some? && d.result.value.score == 0 then SeenErrorReview else SeenAwaiting
    case Escalated => SeenEscalated
    case Closed => SeenClosed
    case ErrorReview => SeenErrorReview
  }

  ghost predicate ResultShape(d: Doc) {
    && (d.status.InProgress? || d.status.IntakeComplete? <==> d.result.None?)
    && (d.status.ErrorReview? ==> d.result.value.score == 0)
    && (d.status.AwaitingDecision? && d.result.value.score == 0 ==> d.result.value.ruleDriven)
    && (d.decision.Some? <==> d.status.Escalated? || d.status.Closed?)
  }

  ghost predicate ResultAgrees(full: bool, r: Rebuilt, d: Doc) {
    match d.result
    case None => r.score.None? && r.classification.None? && r.confidence.None?
    case Some(o) =>
      && r.score == Some(o.score) && r.classification == Some(o.classification) && r.confidence == Some(o.confidence)
      && (full ==> && r.computedClassification == Some(o.computedClassification) && r.ruleDriven == Some(o.ruleDriven)
                   && r.winner == o.ruleKey && r.factors == Some(o.factors)
                   && r.recommendedAction == Some(o.recommendedAction) && r.explanation == Some(o.explanation))
  }

  /**
   * The rebuilt state agrees with the document, field by field; `full` is whether every call so far was made under full
   * auditing. The facts agree as long as no answer was logged without them.
   */
  ghost predicate Agrees(full: bool, r: Rebuilt, d: Doc) {
    && r.personaKey == d.personaKey && r.scenarioKey == d.scenarioKey && r.scenarioSource == d.scenarioSource
    && (full ==> r.personaSource == d.personaSource)
    && AnswersTold(full, r.answered, d.answers)
    && (FactsPart !in r.missing ==> r.facts == FactsOf(d.facts))
    && (full ==> FactsPart !in r.missing)
    && ResultAgrees(full, r, d)
    && LastKind(r.decisions) == KindOf(d.decision)
    && r.status == VisibleStatus(d)
    && ResultShape(d)
  }

  // ----- the facts of a question

  lemma {:induction false} FactsOfValue(facts: seq<Fact>, f: Fact)
    requires UniqueFacts(facts) && f in facts
    ensures f.key in FactsOf(facts) && FactsOf(facts)[f.key] == f.value
  {
    var n := |facts| - 1;
    assert facts == facts[..n] + [facts[n]];
    if f != facts[n] {
      FactsOfValue(facts[..n], f);
    }
  }

  lemma {:induction false} FilterKeepsUniqueFacts(p: Fact -> bool, facts: seq<Fact>)
    requires UniqueFacts(facts)
    ensures UniqueFacts(Filter(p, facts))
  {
    if facts != [] {
      FilterKeepsUniqueFacts(p, facts[1..]);
      FilterMembers(p, facts[1..]);
      var rest := Filter(p, facts[1..]);
      forall j | 0 <= j < |rest| ensures rest[j].key != facts[0].key {
        assert rest[j] in rest;
        var i :| 0 <= i < |facts[1..]| && facts[1..][i] == rest[j];
        assert facts[0].key != facts[i + 1].key;
      }
    }
  }

  ghost predicate HasFact(facts: seq<Fact>, key: string) {
    exists f :: f in facts && f.key == key
  }

  /** `after` differs from `before` only in facts stored on behalf of question `key`. */
  ghost predicate ChangedBy(before: seq<Fact>, after: seq<Fact>, key: string) {
    && (forall f :: f in after ==> f in before || f.questionKey == key)
    && (forall f :: f in before ==> HasFact(after, f.key))
  }

  lemma MergedValue(before: seq<Fact>, after: seq<Fact>, key: string, f: Fact)
    requires UniqueFacts(before) && UniqueFacts(after) && ChangedBy(before, after, key) && f in after
    ensures var m := FactsOf(before) + FactsOf(FactsFrom(after, key)); f.key in m && m[f.key] == f.value
  {
    var logged := FactsFrom(after, key);
    FilterKeepsUniqueFacts((x: Fact) => x.questionKey == key, after);
    FilterMembers((x: Fact) => x.questionKey == key, after);
    if f in logged {
      FactsOfValue(logged, f);
    } else {
      FactsOfValue(before, f);
      FactsOfDomain(logged);
      forall g | g in logged ensures g.key != f.key {
        if g.key == f.key {
          OneFactPerKey(after, f, g);
        }
      }
    }
  }

  lemma MergedKeys(before: seq<Fact>, after: seq<Fact>, key: string, k: string)
    requires ChangedBy(before, after, key) && k in FactsOf(before) + FactsOf(FactsFrom(after, key))
    ensures exists f :: f in after && f.key == k
  {
    if k in FactsOf(before) {
      FactsOfDomain(before);
      var f :| f in before && f.key == k;
    } else {
      FactsOfDomain(FactsFrom(after, key));
      FilterMembers((x: Fact) => x.questionKey == key, after);
    }
  }

  /** Logging just the facts a question stored is enough to rebuild the whole fact map. */
  lemma QuestionFactsSuffice(before: seq<Fact>, after: seq<Fact>, key: string)
    requires UniqueFacts(before) && UniqueFacts(after) && ChangedBy(before, after, key)
    ensures FactsOf(before) + FactsOf(FactsFrom(after, key)) == FactsOf(after)
  {
    var m := FactsOf(before) + FactsOf(FactsFrom(after, key));
    forall f | f in after ensures f.key in m && m[f.key] == f.value {
      MergedValue(before, after, key, f);
    }
    forall k | k in m ensures exists f :: f in after && f.key == k {
      MergedKeys(before, after, key, k);
    }
    SameMap(m, after);
  }

  lemma OneFactPerKey(facts: seq<Fact>, f: Fact, g: Fact)
    requires UniqueFacts(facts) && f in facts && g in facts && f.key == g.key
    ensures f == g
  {}

  /** A map that gives each listed fact its value, and has no other key, is the map of the list. */
  lemma SameMap(m: Facts, facts: seq<Fact>)
    requires UniqueFacts(facts)
    requires forall f :: f in facts ==> f.key in m && m[f.key] == f.value
    requires forall k :: k in m ==> exists f :: f in facts && f.key == k
    ensures m == FactsOf(facts)
  {
    FactsOfDomain(facts);
    forall k | k in m ensures FactsOf(facts)[k] == m[k] {
      var f :| f in facts && f.key == k;
      FactsOfValue(facts, f);
    }
  }

  lemma {:induction false} SetFactChanges(facts: seq<Fact>, f: Fact)
    ensures ChangedBy(facts, SetFact(facts, f), f.questionKey)
  {
    SetFactMembers(facts, f);
    if facts != [] {
      SetFactChanges(facts[1..], f);
      assert facts == [facts[0]] + facts[1..];
      var r := SetFact(facts, f);
      forall g | g in facts ensures HasFact(r, g.key) {
        if g == facts[0] {
          assert r[0].key == g.key && r[0] in r;
        } else {
          assert g in facts[1..];
          if facts[0].key != f.key {
            assert HasFact(SetFact(facts[1..], f), g.key);
            var h :| h in SetFact(facts[1..], f) && h.key == g.key;
            assert h in r;
          } else {
            assert g in r;
          }
        }
      }
    }
  }

  lemma ChangesCompose(a: seq<Fact>, b: seq<Fact>, c: seq<Fact>, key: string)
    requires ChangedBy(a, b, key) && ChangedBy(b, c, key)
    ensures ChangedBy(a, c, key)
  {}

  lemma {:induction false} FillGapsChanges(co: Coercions, pin: Pin, q: Question, facts: seq<Fact>,
                                           xs: seq<ExtractedFact>)
    ensures ChangedBy(facts, FillGaps(co, pin, q, facts, xs), q.key)
    decreases |xs|
  {
    if xs != [] {
      var x := xs[0];
      var f := FactFor(x.key, x.value, FromAi, q.key, x.confidence);
      var filled := if FillsGap(co, pin, q, facts, x) then SetFact(facts, f) else facts;
      if FillsGap(co, pin, q, facts, x) {
        SetFactChanges(facts, f);
      }
      FillGapsChanges(co, pin, q, filled, xs[1..]);
      ChangesCompose(facts, filled, FillGaps(co, pin, q, filled, xs[1..]), q.key);
    }
  }

  lemma ExtractionChanges(co: Coercions, pin: Pin, q: Question, m: Message, x: Extraction, facts: seq<Fact>)
    ensures ChangedBy(facts, SetFact(FillGaps(co, pin, q, facts, x.facts), ExtractedAnswer(co, q, m, x)), q.key)
  {
    var filled, f := FillGaps(co, pin, q, facts, x.facts), ExtractedAnswer(co, q, m, x);
    FillGapsChanges(co, pin, q, facts, x.facts);
    SetFactChanges(filled, f);
    ChangesCompose(facts, filled, SetFact(filled, f), q.key);
  }

  lemma JudgeChanges(co: Coercions, pin: Pin, d: Doc, q: Question, m: Message, x: Extraction)
    ensures match Judge(co, pin, d, q, m, x)
            case Refused => true
            case Unclear(facts) => ChangedBy(d.facts, facts, q.key)
            case Settled(facts, _) => ChangedBy(d.facts, facts, q.key)
  {
    if NeedsExtraction(q, m) {
      FillGapsChanges(co, pin, q, d.facts, x.facts);
      ExtractionChanges(co, pin, q, m, x, d.facts);
    } else {
      var v := StructuredValue(co, q, m.Raw());
      if v.Some? {
        SetFactChanges(d.facts, FactFor(q.factKey, v.value, FromChoice, q.key, 1.0));
      }
    }
  }

  // ----- every operation keeps the agreement

  /** Answering touches nothing but the intake's own fields. */
  ghost predicate SameBut(d: Doc, d': Doc) {
    && d'.openingText == d.openingText && d'.personaKey == d.personaKey && d'.personaSource == d.personaSource
    && d'.scenarioKey == d.scenarioKey && d'.scenarioSource == d.scenarioSource && d'.pin == d.pin
    && d'.result == d.result && d'.decision == d.decision
  }

  lemma AnswerShape(co: Coercions, full: bool, d: Doc, m: Message, x: Extraction)
    requires Answer(co, full, d, m, x).Ok?
    ensures var c := Answer(co, full, d, m, x).value;
            var q := Pending(d, m).value;
            && SameBut(d, c.doc) && (c.doc.status.InProgress? || c.doc.status.IntakeComplete?)
            && c.doc.answers == d.answers + [AnswerRecord(q.key, m.Raw())]
            && exists branched :: c.events == [AnsweredEvent(full, q, m, c.doc.facts, branched)]
  {
    var q := Pending(d, m).value;
    match Judge(co, d.pin.value, d, q, m, x)
    case Refused =>
    case Unclear(facts) =>
      assert Answer(co, full, d, m, x).value.events == [AnsweredEvent(full, q, m, facts, [])];
    case Settled(facts, value) =>
      var branched := ApplyBranch(co.norm, q, value, d.queue, d.asked + [q.key]).1;
      assert Answer(co, full, d, m, x).value.events == [AnsweredEvent(full, q, m, facts, branched)];
  }

  lemma AnsweredEventAgrees(all: bool, full: bool, r: Rebuilt, d: Doc, d': Doc, q: Question, m: Message,
                            branched: seq<string>)
    requires Agrees(all, r, d) && d.status == InProgress
    requires UniqueFacts(d.facts) && UniqueFacts(d'.facts) && ChangedBy(d.facts, d'.facts, q.key)
    requires d'.answers == d.answers + [AnswerRecord(q.key, m.Raw())]
    requires d'.status.InProgress? || d'.status.IntakeComplete?
    requires SameBut(d, d')
    ensures Agrees(all && full, ReplayEvent(r, AnsweredEvent(full, q, m, d'.facts, branched)), d')
  {
    QuestionFactsSuffice(d.facts, d'.facts, q.key);
  }

  lemma AnswerFacts(co: Coercions, full: bool, d: Doc, m: Message, x: Extraction)
    requires UniqueFacts(d.facts) && Answer(co, full, d, m, x).Ok?
    ensures var d' := Answer(co, full, d, m, x).value.doc;
            d.status == InProgress && UniqueFacts(d'.facts) && ChangedBy(d.facts, d'.facts, Pending(d, m).value.key)
  {
    var q := Pending(d, m).value;
    JudgeKeepsFacts(co, d.pin.value, d, q, m, x);
    JudgeChanges(co, d.pin.value, d, q, m, x);
  }

  lemma AnswerAgrees(co: Coercions, all: bool, full: bool, log: seq<Event>, d: Doc, m: Message, x: Extraction)
    requires UniqueFacts(d.facts) && Answer(co, full, d, m, x).Ok? && Agrees(all, Replay(log), d)
    ensures var c := Answer(co, full, d, m, x).value; Agrees(all && full, Replay(log + c.events), c.doc)
  {
    var c, q := Answer(co, full, d, m, x).value, Pending(d, m).value;
    AnswerShape(co, full, d, m, x);
    AnswerFacts(co, full, d, m, x);
    var branched :| c.events == [AnsweredEvent(full, q, m, c.doc.facts, branched)];
    var e := AnsweredEvent(full, q, m, c.doc.facts, branched);
    ReplayAppend(log, e);
    AnsweredEventAgrees(all, full, Replay(log), d, c.doc, q, m, branched);
  }

  lemma BeginAgrees(co: Coercions, all: bool, r: Rebuilt, d: Doc, sel: Selection)
    requires Agrees(all, r, d) && d.status == InProgress && Begin(co, d, sel).Ok?
    ensures Agrees(all, ReplayEvent(r, ScenarioSelected(sel.scenarioKey, sel.source)), Begin(co, d, sel).value.doc)
  {}

  lemma SetUpKeepsAgreement(co: Coercions, all: bool, log: seq<Event>, d: Doc, sel: Option<Selection>)
    requires Agrees(all, Replay(log), d) && d.status == InProgress
    ensures AfterPersona(co, d, sel).Ok? ==>
              Agrees(all, Replay(log + AfterPersona(co, d, sel).value.events), AfterPersona(co, d, sel).value.doc)
    ensures sel.Some? && Begin(co, d, sel.value).Ok? ==>
              Agrees(all, Replay(log + Begin(co, d, sel.value).value.events), Begin(co, d, sel.value).value.doc)
  {
    assert log + [] == log;
    if sel.Some? && Begin(co, d, sel.value).Ok? {
      ReplayAppend(log, ScenarioSelected(sel.value.scenarioKey, sel.value.source));
      BeginAgrees(co, all, Replay(log), d, sel.value);
    }
  }

  lemma SubmitEventsAgree(all: bool, full: bool, r: Rebuilt, d: Doc, pin: Pin, score: ScoreResult, explanation: string)
    requires Agrees(all, r, d) && d.status == IntakeComplete
    requires score.errorReview <==> score.score == 0 && score.rule.None?
    ensures var c := Conclude(full, d, pin, score, explanation);
            && |c.events| == 3
            && Agrees(all && full, ReplayEvent(ReplayEvent(ReplayEvent(r, c.events[0]), c.events[1]), c.events[2]),
               c.doc)
  {
    var c := Conclude(full, d, pin, score, explanation);
    var o := c.doc.result.value;
    assert c.events == SubmitEvents(full, score, o);
    var r3 := ReplayEvent(ReplayEvent(ReplayEvent(r, c.events[0]), c.events[1]), c.events[2]);
    assert ResultAgrees(full, r3, c.doc);
    assert r3.facts == r.facts && r3.answered == r.answered && r3.decisions == r.decisions;
  }

  lemma ReplayThree(log: seq<Event>, es: seq<Event>)
    requires |es| == 3
    ensures Replay(log + es) == ReplayEvent(ReplayEvent(ReplayEvent(Replay(log), es[0]), es[1]), es[2])
  {
    ReplayAppend(log, es[0]);
    ReplayAppend(log + [es[0]], es[1]);
    ReplayAppend(log + [es[0]] + [es[1]], es[2]);
    assert log + es == log + [es[0]] + [es[1]] + [es[2]];
  }

  lemma SubmitKeepsAgreement(co: Coercions, all: bool, full: bool, log: seq<Event>, d: Doc, explanation: string)
    requires Agrees(all, Replay(log), d) && Submit(co, full, d, explanation).Ok?
    ensures var c := Submit(co, full, d, explanation).value; Agrees(all && full, Replay(log + c.events), c.doc)
  {
    var score := Score(co, d.pin.value, d.facts);
    SubmitEventsAgree(all, full, Replay(log), d, d.pin.value, score, explanation);
    ReplayThree(log, Submit(co, full, d, explanation).value.events);
  }

  lemma DecisionReplays(r: Rebuilt, kind: DecisionKind, overriddenTo: Option<Classification>, target: Option<string>,
                        reason: Option<Option<string>>)
    ensures var t := ReplayEvent(r, DecisionRecorded(kind, overriddenTo, target, reason));
            && t == r.(decisions := t.decisions, status := t.status, missing := t.missing)
            && LastKind(t.decisions) == Some(kind) && (FactsPart in t.missing <==> FactsPart in r.missing)
            && t.status == if kind.Escalate? then SeenEscalated else SeenClosed
  {}

  lemma DecisionEventAgrees(co: Coercions, all: bool, full: bool, r: Rebuilt, d: Doc, ruling: Ruling)
    requires Agrees(all, r, d) && Decide(co, full, d, ruling).Ok?
    ensures var c := Decide(co, full, d, ruling).value;
            |c.events| == 1 && Agrees(all && full, ReplayEvent(r, c.events[0]), c.doc)
  {
    var e := Decide(co, full, d, ruling).value.events[0];
    DecisionReplays(r, e.kind, e.overriddenTo, e.escalatedTo, e.reason);
  }

  lemma DecideKeepsAgreement(co: Coercions, all: bool, full: bool, log: seq<Event>, d: Doc, ruling: Ruling)
    requires Agrees(all, Replay(log), d) && Decide(co, full, d, ruling).Ok?
    ensures var c := Decide(co, full, d, ruling).value; Agrees(all && full, Replay(log + c.events), c.doc)
  {
    var events := Decide(co, full, d, ruling).value.events;
    DecisionEventAgrees(co, all, full, Replay(log), d, ruling);
    assert events == [events[0]];
    ReplayAppend(log, events[0]);
  }

  lemma SetPersonaKeepsAgreement(co: Coercions, all: bool, full: bool, h: History, personaKey: string,
                                 sel: Option<Selection>)
    requires Inv(co, h) && Agrees(all, Replay(h.log), h.doc)
    ensures var h' := Apply(co, full, h, DoSetPersona(personaKey, sel)); Agrees(all, Replay(h'.log), h'.doc)
  {
    if Apply(co, full, h, DoSetPersona(personaKey, sel)) != h {
      var e := h.doc.(personaKey := Some(personaKey), personaSource := Some(ByUser));
      ReplayAppend(h.log, PersonaSet(personaKey));
      SetUpKeepsAgreement(co, all, h.log + [PersonaSet(personaKey)], e, sel);
      var rest := AfterPersona(co, e, sel).value.events;
      assert h.log + ([PersonaSet(personaKey)] + rest) == h.log + [PersonaSet(personaKey)] + rest;
    }
  }

  lemma DescribeKeepsAgreement(co: Coercions, all: bool, full: bool, h: History, text: string, sel: Option<Selection>)
    requires Inv(co, h) && Agrees(all, Replay(h.log), h.doc)
    ensures var h' := Apply(co, full, h, DoDescribe(text, sel)); Agrees(all, Replay(h'.log), h'.doc)
  {
    if Apply(co, full, h, DoDescribe(text, sel)) != h {
      SetUpKeepsAgreement(co, all, h.log, h.doc.(openingText := Some(text)), sel);
    }
  }

  lemma AgreesLess(all: bool, full: bool, r: Rebuilt, d: Doc)
    requires Agrees(all, r, d)
    ensures Agrees(all && full, r, d)
  {}

  lemma ApplyKeepsAgreement(co: Coercions, all: bool, full: bool, h: History, op: Op)
    requires Inv(co, h) && Agrees(all, Replay(h.log), h.doc)
    ensures var h' := Apply(co, full, h, op); Agrees(all && full, Replay(h'.log), h'.doc)
  {
    var h' := Apply(co, full, h, op);
    if h' == h {
      AgreesLess(all, full, Replay(h.log), h.doc);
    } else {
      match op
      case DoAnswer(m, x) => AnswerAgrees(co, all, full, h.log, h.doc, m, x);
      case DoSubmit(explanation) => SubmitKeepsAgreement(co, all, full, h.log, h.doc, explanation);
      case DoDecide(ruling) => DecideKeepsAgreement(co, all, full, h.log, h.doc, ruling);
      case DoSetPersona(personaKey, sel) =>
        SetPersonaKeepsAgreement(co, all, full, h, personaKey, sel);
        AgreesLess(all, full, Replay(h'.log), h'.doc);
      case DoDescribe(text, sel) =>
        DescribeKeepsAgreement(co, all, full, h, text, sel);
        AgreesLess(all, full, Replay(h'.log), h'.doc);
    }
  }

  lemma LaunchAgrees(co: Coercions, full: bool, o: Opening)
    requires Launch(co, full, o).Ok?
    ensures var h := Launched(Launch(co, full, o).value); Agrees(full, Replay(h.log), h.doc)
  {
    var blank := NewDoc.(openingText := o.text);
    var d :=
      if o.chosen.Some? then blank.(personaKey := o.chosen, personaSource := Some(ByUser))
      else if o.proposed.Some? then blank.(personaKey := o.proposed, personaSource := Some(ByAi))
      else blank;
    var started :=
      if full then Started(d.personaKey, d.personaSource, d.openingText) else Started(d.personaKey, None, None);
    ReplayAppend([], started);
    assert [] + [started] == [started];
    assert Agrees(full, Replay([started]), d);
    SetUpKeepsAgreement(co, full, [started], d, o.sel);
  }

  predicate AllFull(calls: seq<Call>) {
    forall call :: call in calls ==> call.full
  }

  /** After every run, replaying the log gives the document back, up to what the log does not say. */
  lemma {:induction false} ReplayAgrees(co: Coercions, full: bool, o: Opening, calls: seq<Call>)
    requires Launch(co, full, o).Ok?
    ensures var h := After(co, full, o, calls); Agrees(full && AllFull(calls), Replay(h.log), h.doc)
  {
    if calls == [] {
      LaunchAgrees(co, full, o);
    } else {
      var n := |calls| - 1;
      ReplayAgrees(co, full, o, calls[..n]);
      RunsKeepInv(co, full, o, calls[..n]);
      ApplyKeepsAgreement(co, full && AllFull(calls[..n]), calls[n].full, After(co, full, o, calls[..n]), calls[n].op);
      assert calls == calls[..n] + [calls[n]];
      assert AllFull(calls) <==> AllFull(calls[..n]) && calls[n].full;
    }
  }

  // ----- the conformance report

  datatype Field = PersonaKeyField | ScenarioKeyField | StatusField | ScoreField | ClassificationField | ConfidenceField
                 | DecisionField | FactField(key: string)

  /** A value the log does not give is not a difference. */
  predicate Differs<T(==)>(fromAudit: Option<T>, stored: Option<T>) {
    fromAudit.Some? && fromAudit != stored
  }

  function StoredStatus(s: Status): RebuiltStatus {
    match s
    case InProgress => SeenInProgress
    case IntakeComplete => Unknown
    case AwaitingDecision => SeenAwaiting
    case Escalated => SeenEscalated
    case Closed => SeenClosed
    case ErrorReview => SeenErrorReview
  }

  /** What the report reads of the stored document. */
  datatype Stored = Stored(
    personaKey: Option<string>, scenarioKey: Option<string>, status: RebuiltStatus, score: Option<int>,
    classification: Option<Classification>, confidence: Option<int>, decision: Option<DecisionKind>, facts: Facts)

  function StoredOf(d: Doc): Stored {
    var result := d.result;
    Stored(d.personaKey, d.scenarioKey, StoredStatus(d.status),
           if result.Some? then Some(result.value.score) else None,
           if result.Some? then Some(result.value.classification) else None,
           if result.Some? then Some(result.value.confidence) else None,
           KindOf(d.decision), FactsOf(d.facts))
  }

  /** The status is compared under its own name; an intake that is complete has none that a replay could find. */
  lemma StoredMeans(d: Doc)
    ensures var s := StoredOf(d);
            && (s.status == SeenInProgress <==> d.status == InProgress)
               && (s.status == Unknown <==> d.status == IntakeComplete)
            && (s.status == SeenAwaiting <==> d.status == AwaitingDecision)
            && (s.status == SeenEscalated <==> d.status == Escalated)
               && (s.status == SeenClosed <==> d.status == Closed)
            && (s.status == SeenErrorReview <==> d.status == ErrorReview)
            && s.personaKey == d.personaKey && s.scenarioKey == d.scenarioKey && s.facts == FactsOf(d.facts)
            && (d.result == None ==> s.score == None && s.classification == None && s.confidence == None)
            && (forall o :: d.result == Some(o) ==>
                  s.score == Some(o.score) && s.classification == Some(o.classification)
                    && s.confidence == Some(o.confidence))
            && (d.decision == None ==> s.decision == None)
            && (forall x :: d.decision == Some(x) ==> s.decision == Some(x.kind))
  {}

  /** The same of a document that the retention sweep has reduced (src/modules/retention/service.ts:19-59). */
  function ReducedOf(d: Doc): Stored {
    StoredOf(d).(personaKey := None, scenarioKey := None, score := None, confidence := None, facts := map[])
  }

  predicate Complete(r: Rebuilt) {
    r.missing == {}
  }

  /** Does the report name this fact? JSON null counts as not reconstructible. */
  predicate FactDiffers(r: Rebuilt, stored: Facts, k: string) {
    if k in r.facts then r.facts[k] != Null && Lookup(stored, k) != Some(r.facts[k]) else k in stored
  }

  ghost predicate Reported(r: Rebuilt, stored: Stored, f: Field) {
    match f
    case PersonaKeyField => Differs(r.personaKey, stored.personaKey)
    case ScenarioKeyField => Differs(r.scenarioKey, stored.scenarioKey)
    case StatusField => r.status != Unknown && r.status != stored.status
    case ScoreField => Differs(r.score, stored.score)
    case ClassificationField => Differs(r.classification, stored.classification)
    case ConfidenceField => Differs(r.confidence, stored.confidence)
    case DecisionField => Differs(LastKind(r.decisions), stored.decision)
    case FactField(k) => Complete(r) && FactDiffers(r, stored.facts, k)
  }

  method CompareFacts(r: Rebuilt, stored: Facts) returns (differences: seq<Field>)
    ensures forall f :: f in differences <==> f.FactField? && FactDiffers(r, stored, f.key)
  {
    differences := [];
    var keys := r.facts.Keys + stored.Keys;
    ghost var seen: set<string> := {};
    while keys != {}
      invariant seen + keys == r.facts.Keys + stored.Keys
      invariant forall f :: f in differences <==> f.FactField? && f.key in seen && FactDiffers(r, stored, f.key)
      decreases keys
    {
      var k :| k in keys;
      if FactDiffers(r, stored, k) {
        differences := differences + [FactField(k)];
      }
      keys, seen := keys - {k}, seen + {k};
    }
  }

  function Only(when: bool, f: Field): (fs: seq<Field>)
    ensures forall g :: g in fs <==> when && g == f
  {
    if when then [f] else []
  }

  method CompareOutcome(r: Rebuilt, stored: Stored) returns (differences: seq<Field>)
    ensures forall f :: f in differences
              <==> && (f.ScoreField? || f.ClassificationField? || f.ConfidenceField? || f.DecisionField?)
                   && Reported(r, stored, f)
  {
    differences := Only(Differs(r.score, stored.score), ScoreField)
                   + Only(Differs(r.classification, stored.classification), ClassificationField)
                   + Only(Differs(r.confidence, stored.confidence), ConfidenceField)
                   + Only(Differs(LastKind(r.decisions), stored.decision), DecisionField);
  }

  method Compare(r: Rebuilt, stored: Stored) returns (differences: seq<Field>)
    ensures forall f :: f in differences <==> Reported(r, stored, f)
  {
    differences := Only(Differs(r.personaKey, stored.personaKey), PersonaKeyField)
                   + Only(Differs(r.scenarioKey, stored.scenarioKey), ScenarioKeyField)
                   + Only(r.status != Unknown && r.status != stored.status, StatusField);
    var outcome := CompareOutcome(r, stored);
    differences := differences + outcome;
    if Complete(r) {
      var facts := CompareFacts(r, stored.facts);
      differences := differences + facts;
    }
  }

  /** The statuses a replay cannot tell: intake completion, and a score of 0 that a hard rule overrode. */
  predicate Untold(d: Doc) {
    d.status.IntakeComplete? || (d.status.AwaitingDecision? && d.result.Some? && d.result.value.score == 0)
  }

  /**
   * On a run's own log, whatever plan each call was made under, the report is empty, except for the status in exactly
   * the states a replay cannot tell.
   */
  lemma ConformanceIsExact(co: Coercions, full: bool, o: Opening, calls: seq<Call>, f: Field)
    requires Launch(co, full, o).Ok?
    ensures var h := After(co, full, o, calls);
            Reported(Replay(h.log), StoredOf(h.doc), f) <==> f == StatusField && Untold(h.doc)
  {
    ReplayAgrees(co, full, o, calls);
  }

  /** A status that differs because of a zero score always comes with a fired rule. */
  lemma ZeroScoreNeedsARule(co: Coercions, full: bool, o: Opening, calls: seq<Call>)
    requires Launch(co, full, o).Ok?
    requires var d := After(co, full, o, calls).doc; d.status.AwaitingDecision? && Untold(d)
    ensures After(co, full, o, calls).doc.result.value.ruleDriven
  {
    ReplayAgrees(co, full, o, calls);
  }

  // ----- completeness

  predicate IsDetailed(e: Event) {
    match e
    case Answered(_, detail, _) => detail.Some?
    case RulesEvaluated(detailed, _) => detailed.Some?
    case Scored(_, _, _, factors) => factors.Some?
    case Recommended(_, _, prose) => prose.Some?
    case DecisionRecorded(_, _, _, reason) => reason.Some?
    case _ => true
  }

  /** The operation writes details that only full auditing keeps. */
  predicate HasDetails(op: Op) {
    op.DoAnswer? || op.DoSubmit? || op.DoDecide?
  }

  ghost predicate DetailedEvents(events: seq<Event>) {
    forall i :: 0 <= i < |events| ==> IsDetailed(events[i])
  }

  lemma SettingUpIsDetailed(co: Coercions, d: Doc, sel: Option<Selection>)
    requires AfterPersona(co, d, sel).Ok?
    ensures DetailedEvents(AfterPersona(co, d, sel).value.events) && Unstarted(AfterPersona(co, d, sel).value.events)
  {}

  ghost predicate Unstarted(events: seq<Event>) {
    forall i :: 0 <= i < |events| ==> !events[i].Started?
  }

  lemma AnswerIsDetailed(co: Coercions, full: bool, d: Doc, m: Message, x: Extraction)
    requires Answer(co, full, d, m, x).Ok?
    ensures var events := Answer(co, full, d, m, x).value.events;
            (DetailedEvents(events) <==> full) && Unstarted(events)
  {
    AnswerShape(co, full, d, m, x);
    var events := Answer(co, full, d, m, x).value.events;
    assert events[0] in events;
  }

  lemma SubmitIsDetailed(full: bool, r: ScoreResult, o: Outcome)
    ensures var events := SubmitEvents(full, r, o); (DetailedEvents(events) <==> full) && Unstarted(events)
  {
    var events := SubmitEvents(full, r, o);
    assert events[0] in events;
  }

  lemma DecisionIsDetailed(co: Coercions, full: bool, d: Doc, ruling: Ruling)
    requires Decide(co, full, d, ruling).Ok?
    ensures var events := Decide(co, full, d, ruling).value.events;
            (DetailedEvents(events) <==> full) && Unstarted(events)
  {
    var events := Decide(co, full, d, ruling).value.events;
    assert events[0] in events;
  }

  lemma OperationIsDetailed(co: Coercions, full: bool, d: Doc, op: Op)
    requires Perform(co, full, d, op).Ok?
    ensures var events := Perform(co, full, d, op).value.events;
            (DetailedEvents(events) <==> full || !HasDetails(op)) && Unstarted(events)
  {
    match op
    case DoAnswer(m, x) => AnswerIsDetailed(co, full, d, m, x);
    case DoSubmit(explanation) =>
      var r := Score(co, d.pin.value, d.facts);
      SubmitIsDetailed(full, r, Conclude(full, d, d.pin.value, r, explanation).doc.result.value);
    case DoDecide(ruling) => DecisionIsDetailed(co, full, d, ruling);
    case DoSetPersona(personaKey, sel) =>
      SettingUpIsDetailed(co, d.(personaKey := Some(personaKey), personaSource := Some(ByUser)), sel);
    case DoDescribe(text, sel) =>
  }

  /** A call that was accepted under a plan without full auditing, and had details to log. */
  predicate LosesDetails(co: Coercions, h: History, call: Call) {
    !call.full && HasDetails(call.op) && Perform(co, call.full, h.doc, call.op).Ok?
  }

  ghost predicate LosesNothing(co: Coercions, h: History, calls: seq<Call>) {
    forall i :: 0 <= i < |calls| ==> !LosesDetails(co, Run(co, h, calls[..i]), calls[i])
  }

  lemma LosesNothingSplit(co: Coercions, h: History, calls: seq<Call>, n: nat)
    requires n + 1 == |calls|
    ensures LosesNothing(co, h, calls)
            <==> LosesNothing(co, h, calls[..n]) && !LosesDetails(co, Run(co, h, calls[..n]), calls[n])
  {
    assert forall i :: 0 <= i < n ==> calls[..n][..i] == calls[..i] && calls[..n][i] == calls[i];
  }

  lemma DetailedJoin(a: seq<Event>, b: seq<Event>)
    ensures DetailedEvents(a + b) <==> DetailedEvents(a) && DetailedEvents(b)
  {
    if DetailedEvents(a + b) {
      assert forall i :: 0 <= i < |a| ==> a[i] == (a + b)[i];
      assert forall i :: 0 <= i < |b| ==> b[i] == (a + b)[|a| + i];
    }
  }

  /** A log that begins with its only start, which carries `text`. */
  ghost predicate BeginsWith(log: seq<Event>, text: Option<string>) {
    log != [] && log[0].Started? && log[0].openingText == text && forall i :: 1 <= i < |log| ==> !log[i].Started?
  }

  lemma BeginsWithMore(log: seq<Event>, more: seq<Event>, text: Option<string>)
    requires BeginsWith(log, text) && Unstarted(more)
    ensures BeginsWith(log + more, text)
  {}

  lemma LaunchShape(co: Coercions, full: bool, o: Opening)
    requires Launch(co, full, o).Ok?
    ensures var log := Launch(co, full, o).value.events;
            BeginsWith(log, if full then o.text else None) && DetailedEvents(log)
  {
    var log := Launch(co, full, o).value.events;
    if o.chosen.Some? {
      var d := NewDoc.(openingText := o.text, personaKey := o.chosen, personaSource := Some(ByUser));
      SettingUpIsDetailed(co, d, o.sel);
      BeginsWithMore([log[0]], AfterPersona(co, d, o.sel).value.events, if full then o.text else None);
    }
  }

  lemma ServeShape(co: Coercions, h: History, call: Call, text: Option<string>)
    requires BeginsWith(h.log, text)
    ensures BeginsWith(Serve(co, h, call).log, text)
    ensures DetailedEvents(Serve(co, h, call).log) <==> DetailedEvents(h.log) && !LosesDetails(co, h, call)
  {
    var step := Perform(co, call.full, h.doc, call.op);
    if step.Ok? {
      OperationIsDetailed(co, call.full, h.doc, call.op);
      DetailedJoin(h.log, step.value.events);
      BeginsWithMore(h.log, step.value.events, text);
    }
  }

  /** The log of a run: how it begins, and when it keeps every detail. */
  lemma {:induction false} LogShape(co: Coercions, full: bool, o: Opening, h: History, calls: seq<Call>)
    requires Launch(co, full, o).Ok? && h == Launched(Launch(co, full, o).value)
    ensures BeginsWith(Run(co, h, calls).log, if full then o.text else None)
    ensures DetailedEvents(Run(co, h, calls).log) <==> LosesNothing(co, h, calls)
  {
    if calls == [] {
      LaunchShape(co, full, o);
    } else {
      var n := |calls| - 1;
      LogShape(co, full, o, h, calls[..n]);
      LosesNothingSplit(co, h, calls, n);
      ServeShape(co, Run(co, h, calls[..n]), calls[n], if full then o.text else None);
    }
  }

  /** A replay misses nothing exactly when the start carries the opening text and every event its details. */
  lemma {:induction false} DetailedMissesNothing(log: seq<Event>, text: Option<string>)
    requires BeginsWith(log, text)
    ensures Complete(Replay(log)) <==> text.Some? && DetailedEvents(log)
  {
    var n := |log| - 1;
    assert log == log[..n] + [log[n]];
    ReplayAppend(log[..n], log[n]);
    if n == 0 {
      assert Replay(log[..0]) == Nothing;
    } else {
      DetailedMissesNothing(log[..n], text);
      DetailedJoin(log[..n], [log[n]]);
      EventMissesNothing(Replay(log[..n]), log[n]);
    }
  }

  lemma EventMissesNothing(r: Rebuilt, e: Event)
    requires !e.Started?
    ensures Complete(ReplayEvent(r, e)) <==> Complete(r) && IsDetailed(e)
  {
    assert forall p: Part, ps: set<Part> :: p in ps + {p};
    assert r.missing <= ReplayEvent(r, e).missing;
  }

  /**
   * A replay is complete exactly when the assessment was started under full auditing with a text and no call that
   * had details to log was made without it. Started with a persona alone it stays partial for ever, because no later
   * event carries the description given afterwards.
   */
  lemma CompleteIffOpenedWithText(co: Coercions, full: bool, o: Opening, calls: seq<Call>)
    requires Launch(co, full, o).Ok?
    ensures Complete(Replay(After(co, full, o, calls).log))
            <==> full && o.text.Some? && LosesNothing(co, Launched(Launch(co, full, o).value), calls)
  {
    LogShape(co, full, o, Launched(Launch(co, full, o).value), calls);
    DetailedMissesNothing(After(co, full, o, calls).log, if full then o.text else None);
  }

  /** Without full auditing a replay is never complete, so no fact is compared. */
  lemma MinimalIsPartial(co: Coercions, full: bool, o: Opening, calls: seq<Call>)
    requires Launch(co, full, o).Ok?
    ensures !full ==> !Complete(Replay(After(co, full, o, calls).log))
  {
    CompleteIffOpenedWithText(co, full, o, calls);
  }

  ghost predicate TellsNoFacts(log: seq<Event>) {
    forall e :: e in log && e.Answered? ==> e.detail.None?
  }

  lemma {:induction false} NoFactsRebuilt(log: seq<Event>)
    requires TellsNoFacts(log)
    ensures Replay(log).facts == map[]
  {
    if log != [] {
      var n := |log| - 1;
      assert log[n] in log;
      NoFactsRebuilt(log[..n]);
    }
  }

  lemma MinimalCallTellsNoFacts(co: Coercions, h: History, call: Call)
    requires TellsNoFacts(h.log) && !call.full
    ensures TellsNoFacts(Serve(co, h, call).log)
  {
    if call.op.DoAnswer? && Answer(co, false, h.doc, call.op.message, call.op.extraction).Ok? {
      AnswerShape(co, false, h.doc, call.op.message, call.op.extraction);
    }
  }

  /** A run without full auditing rebuilds no fact at all. */
  lemma {:induction false} MinimalRebuildsNoFacts(co: Coercions, full: bool, o: Opening, calls: seq<Call>)
    requires Launch(co, full, o).Ok? && forall call :: call in calls ==> !call.full
    ensures TellsNoFacts(After(co, full, o, calls).log) && Replay(After(co, full, o, calls).log).facts == map[]
  {
    if calls != [] {
      var n := |calls| - 1;
      assert calls[n] in calls;
      MinimalRebuildsNoFacts(co, full, o, calls[..n]);
      MinimalCallTellsNoFacts(co, After(co, full, o, calls[..n]), calls[n]);
    }
    NoFactsRebuilt(After(co, full, o, calls).log);
  }

  /**
   * A document that drifted from its log is reported: with a complete replay, a report without facts means that
   * the stored facts are the logged ones.
   */
  lemma DriftIsReported(r: Rebuilt, stored: Stored)
    requires Complete(r) && forall k :: k in r.facts ==> r.facts[k] != Null
    ensures (forall k :: !Reported(r, stored, FactField(k))) <==> stored.facts == r.facts
  {
    if forall k :: !Reported(r, stored, FactField(k)) {
      forall k ensures k in stored.facts <==> k in r.facts {
        assert !Reported(r, stored, FactField(k));
      }
      forall k | k in stored.facts ensures stored.facts[k] == r.facts[k] {
        assert !Reported(r, stored, FactField(k));
      }
    }
  }

  // ----- after the retention sweep

  /** Whoever has a pinned scenario has a persona and a scenario. */
  predicate Placed(d: Doc) {
    d.pin.Some? ==> d.personaKey.Some? && d.scenarioKey.Some?
  }

  lemma CallKeepsPlaced(co: Coercions, h: History, call: Call)
    requires Placed(h.doc)
    ensures Placed(Serve(co, h, call).doc)
  {}

  lemma {:induction false} RunsKeepPlaced(co: Coercions, h: History, calls: seq<Call>)
    requires Placed(h.doc)
    ensures Placed(Run(co, h, calls).doc)
  {
    if calls != [] {
      RunsKeepPlaced(co, h, calls[..|calls| - 1]);
      CallKeepsPlaced(co, Run(co, h, calls[..|calls| - 1]), calls[|calls| - 1]);
    }
  }

  /**
   * The report on a closed assessment that the retention sweep has reduced: its persona, its scenario, its score, its
   * confidence and, where the replay is complete, each of its facts with a value are reported as missing, and nothing
   * else is. So it never matches its log again, although nobody tampered with either.
   */
  lemma ReducedIsReported(co: Coercions, full: bool, o: Opening, calls: seq<Call>, f: Field)
    requires Launch(co, full, o).Ok? && After(co, full, o, calls).doc.status.Closed?
    ensures var h := After(co, full, o, calls);
            var facts := FactsOf(h.doc.facts);
            Reported(Replay(h.log), ReducedOf(h.doc), f)
            <==> match f
                 case PersonaKeyField => true
                 case ScenarioKeyField => true
                 case ScoreField => true
                 case ConfidenceField => true
                 case FactField(k) => Complete(Replay(h.log)) && k in facts && facts[k] != Null
                 case _ => false
  {
    var h := After(co, full, o, calls);
    ReplayAgrees(co, full, o, calls);
    RequiredFactsAtCompletion(co, full, o, calls);
    RunsKeepPlaced(co, Launched(Launch(co, full, o).value), calls);
  }
}
