/**
 * What a replay tells beyond the fields that the conformance report compares (src/modules/assessments/reconstruct.ts):
 * the text an assessment was opened with, and the last decision with the classification it set and its reason.
 */
module ReplayDetails {
  import opened Prelude
  import opened Branching
  import opened RuleEngine
  import opened Intake
  import opened IntakeRuns
  import opened OutcomeLaws
  import opened R = Replay

  /**
   * The replayed decisions end in the document's; its reason, when the log has it, is the stored one before trimming.
   */
  ghost predicate DecisionTold(co: Coercions, full: bool, told: seq<RebuiltDecision>, decision: Option<Decision>) {
    match decision
    case None => told == []
    case Some(x) =>
      && told != []
      && var last := told[|told| - 1];
         && last.kind == x.kind && last.overriddenTo == x.overriddenTo
         && (full ==> (last.reason.None? <==> x.reason.None?))
         && (last.reason.Some? ==> x.reason == Some(co.trim(last.reason.value)))
  }

  /** A text the assessment was opened with is still its text, and no description is asked for. */
  ghost predicate OpeningTold(told: Option<string>, d: Doc) {
    HasText(told) ==> told == d.openingText && d.phase != DescribePhase
  }

  ghost predicate Tells(co: Coercions, full: bool, r: Rebuilt, d: Doc) {
    OpeningTold(r.openingText, d) && DecisionTold(co, full, r.decisions, d.decision)
  }

  /** Events that are neither a start nor a decision. */
  ghost predicate Plain(events: seq<Event>) {
    forall e :: e in events ==> !e.Started? && !e.DecisionRecorded?
  }

  lemma PlainEventTells(r: Rebuilt, e: Event)
    requires !e.Started? && !e.DecisionRecorded?
    ensures ReplayEvent(r, e).openingText == r.openingText && ReplayEvent(r, e).decisions == r.decisions
  {}

  lemma {:induction false} PlainTellsNothing(log: seq<Event>, events: seq<Event>)
    requires Plain(events)
    ensures var r, t := Replay(log), Replay(log + events); t.openingText == r.openingText && t.decisions == r.decisions
  {
    if events == [] {
      assert log + events == log;
    } else {
      var n := |events| - 1;
      PlainTellsNothing(log, events[..n]);
      assert log + events == (log + events[..n]) + [events[n]];
      ReplayAppend(log + events[..n], events[n]);
      assert events[n] in events;
      PlainEventTells(Replay(log + events[..n]), events[n]);
    }
  }

  lemma PlainStepTells(co: Coercions, full: bool, log: seq<Event>, d: Doc, c: Commit)
    requires Plain(c.events) && Tells(co, full, Replay(log), d)
    requires c.doc.openingText == d.openingText && c.doc.decision == d.decision
    requires c.doc.phase == DescribePhase ==> d.phase == DescribePhase || !HasText(d.openingText)
    ensures Tells(co, full, Replay(log + c.events), c.doc)
  {
    PlainTellsNothing(log, c.events);
  }

  lemma DescribingTells(co: Coercions, full: bool, log: seq<Event>, d: Doc, c: Commit)
    requires Plain(c.events) && Tells(co, full, Replay(log), d) && d.phase == DescribePhase
             && c.doc.decision == d.decision
    ensures Tells(co, full, Replay(log + c.events), c.doc)
  {
    PlainTellsNothing(log, c.events);
  }

  /** A decision is told after the others, and nothing of the opening changes. */
  lemma DecisionReplayed(r: Rebuilt, kind: DecisionKind, overriddenTo: Option<Classification>, target: Option<string>,
                         reason: Option<Option<string>>)
    ensures var t := ReplayEvent(r, DecisionRecorded(kind, overriddenTo, target, reason));
            && t.openingText == r.openingText && |t.decisions| == |r.decisions| + 1
            && t.decisions[|r.decisions|]
               == RebuiltDecision(kind, overriddenTo, if reason.Some? then reason.value else None)
  {}

  lemma DecidingTells(co: Coercions, all: bool, full: bool, log: seq<Event>, d: Doc, ruling: Ruling)
    requires Tells(co, all, Replay(log), d) && Decide(co, full, d, ruling).Ok?
    ensures var c := Decide(co, full, d, ruling).value; Tells(co, all && full, Replay(log + c.events), c.doc)
  {
    DecideMeans(co, full, d, ruling);
    var target := if NamesReviewer(ruling) then ruling.reviewer else None;
    var given := ruling.decision;
    var reason := if full then Some(given.reason) else None;
    ReplayAppend(log, DecisionRecorded(given.kind, given.overriddenTo, target, reason));
    DecisionReplayed(Replay(log), given.kind, given.overriddenTo, target, reason);
  }

  lemma AnsweringLeavesPhase(co: Coercions, full: bool, d: Doc, m: Message, x: Extraction)
    requires Answer(co, full, d, m, x).Ok?
    ensures Answer(co, full, d, m, x).value.doc.phase != DescribePhase
  {}

  lemma AnsweringIsPlain(co: Coercions, full: bool, d: Doc, m: Message, x: Extraction)
    requires Answer(co, full, d, m, x).Ok?
    ensures Plain(Answer(co, full, d, m, x).value.events)
  {
    var c, q := Answer(co, full, d, m, x).value, Pending(d, m).value;
    AnswerShape(co, full, d, m, x);
    var branched :| c.events == [AnsweredEvent(full, q, m, c.doc.facts, branched)];
  }

  lemma AnsweringTells(co: Coercions, all: bool, full: bool, log: seq<Event>, d: Doc, m: Message, x: Extraction)
    requires Tells(co, all, Replay(log), d) && Answer(co, full, d, m, x).Ok?
    ensures var c := Answer(co, full, d, m, x).value; Tells(co, all && full, Replay(log + c.events), c.doc)
  {
    AnsweringIsPlain(co, full, d, m, x);
    AnsweringLeavesPhase(co, full, d, m, x);
    AnswerShape(co, full, d, m, x);
    PlainStepTells(co, all, log, d, Answer(co, full, d, m, x).value);
  }

  lemma SubmittingTells(co: Coercions, all: bool, full: bool, log: seq<Event>, d: Doc, explanation: string)
    requires Tells(co, all, Replay(log), d) && Submit(co, full, d, explanation).Ok?
    ensures var c := Submit(co, full, d, explanation).value; Tells(co, all, Replay(log + c.events), c.doc)
  {
    PlainStepTells(co, all, log, d, Submit(co, full, d, explanation).value);
  }

  lemma ChoosingTells(co: Coercions, all: bool, log: seq<Event>, d: Doc, key: string, sel: Option<Selection>)
    requires Tells(co, all, Replay(log), d) && SetPersona(co, d, key, sel).Ok?
    ensures var c := SetPersona(co, d, key, sel).value; Tells(co, all, Replay(log + c.events), c.doc)
  {
    PlainStepTells(co, all, log, d, SetPersona(co, d, key, sel).value);
  }

  lemma CallTells(co: Coercions, all: bool, h: History, call: Call)
    requires Tells(co, all, Replay(h.log), h.doc)
    ensures var t := Serve(co, h, call); Tells(co, all && call.full, Replay(t.log), t.doc)
  {
    if Perform(co, call.full, h.doc, call.op).Ok? {
      match call.op
      case DoAnswer(m, x) => AnsweringTells(co, all, call.full, h.log, h.doc, m, x);
      case DoSubmit(explanation) => SubmittingTells(co, all, call.full, h.log, h.doc, explanation);
      case DoDecide(ruling) => DecidingTells(co, all, call.full, h.log, h.doc, ruling);
      case DoSetPersona(key, sel) => ChoosingTells(co, all, h.log, h.doc, key, sel);
      case DoDescribe(text, sel) => DescribingTells(co, all, h.log, h.doc, Describe(co, h.doc, text, sel).value);
    }
  }

  lemma StartedReplayed(personaKey: Option<string>, source: Option<PersonaSource>, text: Option<string>,
                        more: seq<Event>)
    requires Plain(more)
    ensures var r := Replay([Started(personaKey, source, text)] + more); r.openingText == text && r.decisions == []
  {
    var first := Started(personaKey, source, text);
    assert [] + [first] == [first];
    ReplayAppend([], first);
    PlainTellsNothing([first], more);
  }

  /** An assessment opens with the start, told with its text under full auditing, and nothing but plain events. */
  lemma OpeningEvents(co: Coercions, full: bool, o: Opening) returns (first: Event, more: seq<Event>)
    requires Launch(co, full, o).Ok?
    ensures var c := Launch(co, full, o).value;
            && first.Started? && first.openingText == (if full then o.text else None) && Plain(more)
            && c.events == [first] + more && c.doc.openingText == o.text && c.doc.decision == None
            && (HasText(o.text) ==> c.doc.phase != DescribePhase)
  {
    var c := Launch(co, full, o).value;
    StartMeans(co, full, o.text, o.chosen, o.proposed, o.sel);
    first, more := c.events[0], c.events[1..];
  }

  lemma LaunchTells(co: Coercions, full: bool, o: Opening)
    requires Launch(co, full, o).Ok?
    ensures var h := Launched(Launch(co, full, o).value); Tells(co, full, Replay(h.log), h.doc)
  {
    var first, more := OpeningEvents(co, full, o);
    StartedReplayed(first.personaKey, first.personaSource, first.openingText, more);
  }

  /**
   * After every run a replay tells the text the assessment was opened with, if it was logged, and the last decision:
   * its kind, the classification it set and, under full auditing, its reason.
   */
  lemma {:induction false} RunsTell(co: Coercions, full: bool, o: Opening, calls: seq<Call>)
    requires Launch(co, full, o).Ok?
    ensures var h := After(co, full, o, calls); Tells(co, full && AllFull(calls), Replay(h.log), h.doc)
  {
    if calls == [] {
      LaunchTells(co, full, o);
    } else {
      var n := |calls| - 1;
      RunsTell(co, full, o, calls[..n]);
      CallTells(co, full && AllFull(calls[..n]), After(co, full, o, calls[..n]), calls[n]);
      assert calls == calls[..n] + [calls[n]];
      assert AllFull(calls) <==> AllFull(calls[..n]) && calls[n].full;
    }
  }

  /** The text that full auditing logs at the start is the one given. */
  lemma OpeningIsLogged(co: Coercions, o: Opening)
    requires Launch(co, true, o).Ok?
    ensures Replay(Launch(co, true, o).value.events).openingText == o.text
  {
    var first, more := OpeningEvents(co, true, o);
    StartedReplayed(first.personaKey, first.personaSource, first.openingText, more);
  }
}
