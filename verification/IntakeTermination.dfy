/**
 * How long an intake can go on. Each settled answer uses up one unit of a measure that is at most the number of pinned
 * questions plus the number of required facts, and at most one clarification precedes a settlement; two exceptions,
 * which the code does not rule out, cost nothing: a required fact settled with an empty value, and a clarification
 * without text. The bounds count them, so without them every intake ends, and with either one it need not.
 */
module IntakeTermination {
  import opened Prelude
  import opened Conditions
  import opened Branching
  import opened Intake
  import opened IntakeRuns

  // ----- counting

  lemma {:induction false} WithoutDropsOne(asked: seq<string>, key: string)
    requires Distinct(asked)
    ensures |Without(asked, key)| >= |asked| - 1
    ensures key !in asked ==> |Without(asked, key)| == |asked|
  {
    if asked != [] {
      WithoutDropsOne(asked[1..], key);
      if asked[0] == key {
        assert key !in asked[1..];
      }
    }
  }

  lemma {:induction false} FewKeys(questions: seq<Question>)
    ensures |KeysOf(questions)| <= |questions|
  {
    if questions == [] {
      assert KeysOf(questions) == {};
    } else {
      FewKeys(questions[1..]);
      assert questions == [questions[0]] + questions[1..];
      assert KeysOf(questions) == KeysOf(questions[1..]) + {questions[0].key};
    }
  }

  lemma {:induction false} KeyNamesOneQuestion(questions: seq<Question>, q: Question)
    requires q in questions
    requires forall i, j :: 0 <= i < j < |questions| ==> questions[i].key != questions[j].key
    ensures FindQuestion(questions, q.key) == Some(q)
  {
    if questions[0] != q {
      var j :| 0 <= j < |questions| && questions[j] == q;
      assert questions[0].key != questions[j].key;
      KeyNamesOneQuestion(questions[1..], q);
    }
  }

  // ----- the measure

  function CurrentFact(pin: Pin, current: Option<string>): Option<string> {
    if current.None? then None
    else
      var q := FindQuestion(pin.questions, current.value);
      if q.Some? then Some(q.value.factKey) else None
  }

  function Missing(pin: Pin, facts: Facts, about: Option<string>): set<string> {
    set k | k in pin.required && !Captured(facts, k) && Some(k) != about
  }

  /** Required facts still missing, not counting the one the current question is about to produce. */
  function Outstanding(pin: Pin, facts: Facts, about: Option<string>): nat {
    |Missing(pin, facts, about)|
  }

  function Remaining(d: Doc): int {
    if d.phase.QuestionsPhase? && d.pin.Some? then
      |d.pin.value.questions| - |d.asked|
      + Outstanding(d.pin.value, FactsOf(d.facts), CurrentFact(d.pin.value, d.current))
    else 0
  }

  function TurnsLeft(d: Doc): int {
    2 * Remaining(d) - if d.phase.QuestionsPhase? && HasText(d.clarification) then 1 else 0
  }

  lemma SomethingRemains(co: Coercions, h: History)
    requires Inv(co, h) && h.doc.phase.QuestionsPhase?
    ensures Remaining(h.doc) >= 1
  {
    var d, keys := h.doc, KeysOf(h.doc.pin.value.questions);
    var all := d.asked + [d.current.value];
    assert Elements(all) == Elements(d.asked) + {d.current.value};
    DistinctFits(all, keys);
    FewKeys(d.pin.value.questions);
  }

  // ----- answers that make progress

  predicate NonEmpty(v: Value) {
    v != Null && v != Str("")
  }

  /** A settled value is non-empty unless its fact is optional; a clarification has text. */
  predicate Substantive(co: Coercions, d: Doc, op: Op) {
    op.DoAnswer? && Pending(d, op.message).Some? ==>
      var q := Pending(d, op.message).value;
      match Judge(co, d.pin.value, d, q, op.message, op.extraction)
      case Refused => true
      case Unclear(_) => op.extraction.clarification != Some("")
      case Settled(_, value) => NonEmpty(value) || q.factKey !in d.pin.value.required
  }

  lemma AdvanceUsesOneUp(co: Coercions, h: History, bound: int)
    requires Ready(co, h) && h.doc.phase.QuestionsPhase?
    requires |h.doc.pin.value.questions| - |h.doc.asked|
             + Outstanding(h.doc.pin.value, FactsOf(h.doc.facts), None) <= bound
    requires bound >= 0
    ensures Remaining(Advance(co, h.doc.pin.value, h.doc)) <= bound
  {
    var d, pin := h.doc, h.doc.pin.value;
    var facts := FactsOf(d.facts);
    var missing := MissingRequired(pin.required, facts);
    var d' := Advance(co, pin, d);
    var about := CurrentFact(pin, d'.current);
    CardinalityMonotone(Missing(pin, facts, about), Missing(pin, facts, None));
    var r := NextQuestion(co.norm, pin.flow, pin.questions, d.asked, facts, d.queue);
    if r.0.None? {
      MissingMembers(pin.required, facts);
      ReaskFinds(pin.questions, d.asked, missing);
      var again := Reask(pin.questions, d.asked, missing);
      if again.Some? {
        WithoutDropsOne(d.asked, again.value.key);
        KeyNamesOneQuestion(pin.questions, again.value);
        var f :| f in missing && again == Producer(pin.questions, f);
        assert about == Some(f);
        assert Missing(pin, facts, None) == Missing(pin, facts, about) + {f};
      }
    }
  }

  /** The question's fact is required and is settled without a value. */
  predicate IsBlank(pin: Pin, s: Settlement) {
    !NonEmpty(s.value) && s.question.factKey in pin.required
  }

  lemma SettledFactsShrink(pin: Pin, facts: Facts, facts': Facts, q: Question, value: Value)
    requires q.factKey in facts' && facts'[q.factKey] == value
    requires forall k :: k != q.factKey && Captured(facts, k) ==> Captured(facts', k)
    ensures Outstanding(pin, facts', None)
         <= Outstanding(pin, facts, Some(q.factKey)) + if IsBlank(pin, Settlement(q, value)) then 1 else 0
  {
    var before := Missing(pin, facts, Some(q.factKey));
    if IsBlank(pin, Settlement(q, value)) {
      CardinalityMonotone(Missing(pin, facts', None), before + {q.factKey});
    } else {
      CardinalityMonotone(Missing(pin, facts', None), before);
    }
  }

  /** A settled answer uses up one unit of what remains, unless it leaves a required fact blank. */
  lemma SettlingUsesOneUp(co: Coercions, full: bool, h: History, m: Message, x: Extraction)
    requires Inv(co, h) && Pending(h.doc, m).Some?
    requires Judge(co, h.doc.pin.value, h.doc, Pending(h.doc, m).value, m, x).Settled?
    ensures var value := Judge(co, h.doc.pin.value, h.doc, Pending(h.doc, m).value, m, x).value;
            Remaining(Apply(co, full, h, DoAnswer(m, x)).doc)
            <= Remaining(h.doc) - if IsBlank(h.doc.pin.value, Settlement(Pending(h.doc, m).value, value)) then 0 else 1
  {
    var d, pin, q := h.doc, h.doc.pin.value, Pending(h.doc, m).value;
    var verdict := Judge(co, pin, d, q, m, x);
    var s := Settlement(q, verdict.value);
    JudgeKeepsFacts(co, pin, d, q, m, x);
    SettleIsReady(co, h, q, m, verdict.facts, verdict.value, h.log);
    SomethingRemains(co, h);
    SettledFactsShrink(pin, FactsOf(d.facts), FactsOf(verdict.facts), q, verdict.value);
    AdvanceUsesOneUp(co, History(Settle(co, d, q, m, verdict.facts, verdict.value), h.log, h.settled + [s]),
                     Remaining(d) - if IsBlank(pin, s) then 0 else 1);
  }

  // ----- the bound over whole runs

  function Capacity(pin: Pin): nat {
    |pin.questions| + |Elements(pin.required)|
  }

  function Blanks(pin: Pin, settled: seq<Settlement>): nat {
    if settled == [] then 0
    else Blanks(pin, settled[..|settled| - 1]) + if IsBlank(pin, settled[|settled| - 1]) then 1 else 0
  }

  lemma BlanksGrow(pin: Pin, settled: seq<Settlement>, s: Settlement)
    ensures Blanks(pin, settled + [s]) == Blanks(pin, settled) + if IsBlank(pin, s) then 1 else 0
  {
    assert (settled + [s])[..|settled|] == settled;
  }

  /** The turn ends in a clarification without text. */
  predicate AsksNothing(co: Coercions, d: Doc, op: Op) {
    && op.DoAnswer? && Pending(d, op.message).Some?
    && Judge(co, d.pin.value, d, Pending(d, op.message).value, op.message, op.extraction).Unclear?
    && op.extraction.clarification == Some("")
  }

  /** How many turns of the run ended in a clarification without text. */
  function EmptyTurns(co: Coercions, h: History, calls: seq<Call>): nat {
    if calls == [] then 0
    else
      var n := |calls| - 1;
      EmptyTurns(co, h, calls[..n]) + if AsksNothing(co, Run(co, h, calls[..n]).doc, calls[n].op) then 1 else 0
  }

  ghost predicate Bounded(h: History, empty: nat) {
    if h.doc.phase.QuestionsPhase? || h.doc.phase.DonePhase? then
      && h.doc.pin.Some?
      && var room := Capacity(h.doc.pin.value) + Blanks(h.doc.pin.value, h.settled);
         && |h.settled| + Remaining(h.doc) <= room
         && |h.doc.answers| + TurnsLeft(h.doc) <= 2 * room + empty
    else h.settled == [] && h.doc.answers == []
  }

  lemma UnclearUsesATurn(co: Coercions, full: bool, h: History, m: Message, x: Extraction)
    requires Inv(co, h) && Pending(h.doc, m).Some?
    requires Judge(co, h.doc.pin.value, h.doc, Pending(h.doc, m).value, m, x).Unclear?
    ensures var d' := Apply(co, full, h, DoAnswer(m, x)).doc;
            && Remaining(d') <= Remaining(h.doc)
            && TurnsLeft(d') <= TurnsLeft(h.doc) - if AsksNothing(co, h.doc, DoAnswer(m, x)) then 0 else 1
  {
    var d, pin, q := h.doc, h.doc.pin.value, Pending(h.doc, m).value;
    var verdict := Judge(co, pin, d, q, m, x);
    JudgeKeepsFacts(co, pin, d, q, m, x);
    CardinalityMonotone(Missing(pin, FactsOf(verdict.facts), CurrentFact(pin, d.current)),
                        Missing(pin, FactsOf(d.facts), CurrentFact(pin, d.current)));
  }

  /** What a settled or unclear turn leaves, given how the measures moved. */
  lemma TurnKeepsBound(h: History, t: History, empty: nat, more: seq<Settlement>, blank: nat, idle: nat)
    requires Bounded(h, empty) && h.doc.phase.QuestionsPhase? && (t.doc.phase.QuestionsPhase? || t.doc.phase.DonePhase?)
    requires t.doc.pin == h.doc.pin && t.settled == h.settled + more && |more| <= 1 && blank <= 1
    requires |t.doc.answers| == |h.doc.answers| + 1
    requires Blanks(h.doc.pin.value, t.settled) == Blanks(h.doc.pin.value, h.settled) + blank
    requires if more == [] then TurnsLeft(t.doc) <= TurnsLeft(h.doc) - 1 + idle && Remaining(t.doc) <= Remaining(h.doc)
             else Remaining(t.doc) <= Remaining(h.doc) - 1 + blank
    ensures Bounded(t, empty + idle)
  {}

  /** What one accepted turn does to everything the measures look at but the facts. */
  lemma TurnMoves(co: Coercions, full: bool, h: History, m: Message, x: Extraction)
    requires Pending(h.doc, m).Some?
    ensures var q, t := Pending(h.doc, m).value, Apply(co, full, h, DoAnswer(m, x));
            match Judge(co, h.doc.pin.value, h.doc, q, m, x)
            case Refused => t == h
            case Unclear(_) =>
              && t.settled == h.settled && t.doc.pin == h.doc.pin && t.doc.phase.QuestionsPhase?
              && |t.doc.answers| == |h.doc.answers| + 1
            case Settled(_, value) =>
              && t.settled == h.settled + [Settlement(q, value)] && t.doc.pin == h.doc.pin
              && (t.doc.phase.QuestionsPhase? || t.doc.phase.DonePhase?)
              && |t.doc.answers| == |h.doc.answers| + 1
  {}

  lemma SettlingKeepsBound(co: Coercions, full: bool, h: History, m: Message, x: Extraction, empty: nat)
    requires Inv(co, h) && Bounded(h, empty) && Pending(h.doc, m).Some?
    requires Judge(co, h.doc.pin.value, h.doc, Pending(h.doc, m).value, m, x).Settled?
    ensures Bounded(Apply(co, full, h, DoAnswer(m, x)), empty)
  {
    var pin, q, t := h.doc.pin.value, Pending(h.doc, m).value, Apply(co, full, h, DoAnswer(m, x));
    var s := Settlement(q, Judge(co, pin, h.doc, q, m, x).value);
    assert Remaining(t.doc) <= Remaining(h.doc) - if IsBlank(pin, s) then 0 else 1 by {
      SettlingUsesOneUp(co, full, h, m, x);
    }
    TurnMoves(co, full, h, m, x);
    BlanksGrow(pin, h.settled, s);
    TurnKeepsBound(h, t, empty, [s], if IsBlank(pin, s) then 1 else 0, 0);
  }

  lemma UnclearKeepsBound(co: Coercions, full: bool, h: History, m: Message, x: Extraction, empty: nat)
    requires Inv(co, h) && Bounded(h, empty) && Pending(h.doc, m).Some?
    requires Judge(co, h.doc.pin.value, h.doc, Pending(h.doc, m).value, m, x).Unclear?
    ensures Bounded(Apply(co, full, h, DoAnswer(m, x)), empty + if AsksNothing(co, h.doc, DoAnswer(m, x)) then 1 else 0)
  {
    var t := Apply(co, full, h, DoAnswer(m, x));
    var idle := if AsksNothing(co, h.doc, DoAnswer(m, x)) then 1 else 0;
    assert Remaining(t.doc) <= Remaining(h.doc) && TurnsLeft(t.doc) <= TurnsLeft(h.doc) - 1 + idle by {
      UnclearUsesATurn(co, full, h, m, x);
    }
    TurnMoves(co, full, h, m, x);
    assert t.settled == h.settled + [];
    TurnKeepsBound(h, t, empty, [], 0, idle);
  }

  lemma AnswerKeepsBound(co: Coercions, full: bool, h: History, m: Message, x: Extraction, empty: nat)
    requires Inv(co, h) && Bounded(h, empty)
    ensures Bounded(Apply(co, full, h, DoAnswer(m, x)), empty + if AsksNothing(co, h.doc, DoAnswer(m, x)) then 1 else 0)
  {
    var pending := Pending(h.doc, m);
    if pending.Some? {
      match Judge(co, h.doc.pin.value, h.doc, pending.value, m, x)
      case Refused =>
      case Unclear(_) => UnclearKeepsBound(co, full, h, m, x, empty);
      case Settled(_, _) => SettlingKeepsBound(co, full, h, m, x, empty);
    }
  }

  lemma BeginIsBounded(co: Coercions, d: Doc, sel: Selection)
    requires d.asked == [] && d.answers == [] && !d.phase.QuestionsPhase? && Begin(co, d, sel).Ok?
    ensures var d' := Begin(co, d, sel).value.doc;
            d'.answers == [] && d'.pin == Some(sel.pin) && Remaining(d') <= Capacity(sel.pin)
  {
    var d' := Begin(co, d, sel).value.doc;
    CardinalityMonotone(Missing(sel.pin, FactsOf(d'.facts), CurrentFact(sel.pin, d'.current)),
      Elements(sel.pin.required));
  }

  lemma SettingUpKeepsBound(co: Coercions, h: History, e: Doc, sel: Option<Selection>, empty: nat)
    requires Fresh(h) && !h.doc.phase.QuestionsPhase? && !h.doc.phase.DonePhase?
    requires e == h.doc.(openingText := e.openingText, personaKey := e.personaKey, personaSource := e.personaSource)
    ensures AfterPersona(co, e, sel).Ok? ==> Bounded(h.(doc := AfterPersona(co, e, sel).value.doc), empty)
  {
    if HasText(e.openingText) && sel.Some? && Begin(co, e, sel.value).Ok? {
      BeginIsBounded(co, e, sel.value);
    }
  }

  /** The bounds do not look at the result or the decision. */
  lemma ConclusionIsFree(h: History, t: History, empty: nat)
    requires Bounded(h, empty) && t.settled == h.settled
    requires t.doc
             == h.doc.(result := t.doc.result, status := t.doc.status, decision := t.doc.decision,
               escalatedTo := t.doc.escalatedTo)
    ensures Bounded(t, empty)
  {}

  lemma ConcludingKeepsBound(co: Coercions, full: bool, h: History, op: Op, empty: nat)
    requires Bounded(h, empty) && (op.DoSubmit? || op.DoDecide?)
    ensures Bounded(Apply(co, full, h, op), empty)
  {
    var t := Apply(co, full, h, op);
    assert t.settled == h.settled + [] == h.settled || t == h;
    ConclusionIsFree(h, t, empty);
  }

  lemma ApplyKeepsBound(co: Coercions, full: bool, h: History, op: Op, empty: nat)
    requires Inv(co, h) && Bounded(h, empty)
    ensures Bounded(Apply(co, full, h, op), empty + if AsksNothing(co, h.doc, op) then 1 else 0)
  {
    var t := Apply(co, full, h, op);
    if t != h {
      match op
      case DoAnswer(m, x) => AnswerKeepsBound(co, full, h, m, x, empty);
      case DoSubmit(_) => ConcludingKeepsBound(co, full, h, op, empty);
      case DoDecide(_) => ConcludingKeepsBound(co, full, h, op, empty);
      case DoSetPersona(personaKey, sel) =>
        SettingUpKeepsBound(co, h, h.doc.(personaKey := Some(personaKey), personaSource := Some(ByUser)), sel, empty);
        assert t.settled == h.settled;
      case DoDescribe(text, sel) =>
        SettingUpKeepsBound(co, h, h.doc.(openingText := Some(text)), sel, empty);
        assert t.settled == h.settled;
    }
  }

  lemma {:induction false} RunsAreBounded(co: Coercions, full: bool, o: Opening, calls: seq<Call>)
    requires Launch(co, full, o).Ok?
    ensures Bounded(After(co, full, o, calls), EmptyTurns(co, Launched(Launch(co, full, o).value), calls))
  {
    var h := Launched(Launch(co, full, o).value);
    if calls == [] {
      if o.chosen.Some? && HasText(o.text) {
        var e := NewDoc.(openingText := o.text, personaKey := o.chosen, personaSource := Some(ByUser));
        BeginIsBounded(co, e, o.sel.value);
      }
    } else {
      var n := |calls| - 1;
      RunsAreBounded(co, full, o, calls[..n]);
      RunsKeepInv(co, full, o, calls[..n]);
      ApplyKeepsBound(co, calls[n].full, Run(co, h, calls[..n]), calls[n].op, EmptyTurns(co, h, calls[..n]));
    }
  }

  /**
   * However long the run and whatever the model answers: at most (questions + required facts) answers are settled, and
   * one more for each required fact settled blank; at most twice as many turns are accepted, and one more for each
   * clarification without text.
   */
  lemma IntakeIsBounded(co: Coercions, full: bool, o: Opening, calls: seq<Call>)
    requires Launch(co, full, o).Ok? && After(co, full, o, calls).doc.answers != []
    ensures var h := After(co, full, o, calls);
            && h.doc.pin.Some?
            && var room := Capacity(h.doc.pin.value) + Blanks(h.doc.pin.value, h.settled);
               && |h.settled| <= room
               && |h.doc.answers| <= 2 * room + EmptyTurns(co, Launched(Launch(co, full, o).value), calls)
  {
    RunsAreBounded(co, full, o, calls);
    RunsKeepInv(co, full, o, calls);
    var h := After(co, full, o, calls);
    if h.doc.phase.QuestionsPhase? {
      SomethingRemains(co, h);
    }
  }

  /** Every answer of the run is substantive at the moment it is given. */
  ghost predicate SubstantiveRun(co: Coercions, h: History, calls: seq<Call>) {
    forall i :: 0 <= i < |calls| ==> Substantive(co, Run(co, h, calls[..i]).doc, calls[i].op)
  }

  lemma SubstantivePrefix(co: Coercions, h: History, calls: seq<Call>, n: nat)
    requires n <= |calls| && SubstantiveRun(co, h, calls)
    ensures SubstantiveRun(co, h, calls[..n])
  {
    forall i | 0 <= i < n ensures Substantive(co, Run(co, h, calls[..n][..i]).doc, calls[..n][i].op) {
      assert calls[..n][..i] == calls[..i];
    }
  }

  ghost predicate NoBlanks(h: History) {
    h.doc.pin.Some? ==> Blanks(h.doc.pin.value, h.settled) == 0
  }

  lemma SubstantiveAnswersCountNothing(co: Coercions, full: bool, h: History, m: Message, x: Extraction)
    requires NoBlanks(h) && Substantive(co, h.doc, DoAnswer(m, x))
    ensures NoBlanks(Apply(co, full, h, DoAnswer(m, x))) && !AsksNothing(co, h.doc, DoAnswer(m, x))
  {
    if Pending(h.doc, m).Some? {
      var q := Pending(h.doc, m).value;
      var verdict := Judge(co, h.doc.pin.value, h.doc, q, m, x);
      TurnMoves(co, full, h, m, x);
      if verdict.Settled? {
        BlanksGrow(h.doc.pin.value, h.settled, Settlement(q, verdict.value));
      }
    }
  }

  lemma NothingSettledNoBlanks(co: Coercions, full: bool, h: History, op: Op)
    requires Inv(co, h) && NoBlanks(h) && !op.DoAnswer?
    ensures NoBlanks(Apply(co, full, h, op))
  {
    var t := Apply(co, full, h, op);
    assert t.settled == h.settled + [] == h.settled;
    assert h.settled == [] || t.doc.pin == h.doc.pin;
  }

  lemma SubstantiveKeepsNoBlanks(co: Coercions, full: bool, h: History, op: Op)
    requires Inv(co, h) && NoBlanks(h) && Substantive(co, h.doc, op)
    ensures NoBlanks(Apply(co, full, h, op)) && !AsksNothing(co, h.doc, op)
  {
    match op
    case DoAnswer(m, x) => SubstantiveAnswersCountNothing(co, full, h, m, x);
    case _ => NothingSettledNoBlanks(co, full, h, op);
  }

  lemma {:induction false} SubstantiveRunsCountNothing(co: Coercions, full: bool, o: Opening, calls: seq<Call>)
    requires Launch(co, full, o).Ok?
    requires SubstantiveRun(co, Launched(Launch(co, full, o).value), calls)
    ensures NoBlanks(After(co, full, o, calls)) && EmptyTurns(co, Launched(Launch(co, full, o).value), calls) == 0
  {
    if calls != [] {
      var n := |calls| - 1;
      var h := Launched(Launch(co, full, o).value);
      SubstantivePrefix(co, h, calls, n);
      SubstantiveRunsCountNothing(co, full, o, calls[..n]);
      RunsKeepInv(co, full, o, calls[..n]);
      SubstantiveKeepsNoBlanks(co, calls[n].full, Run(co, h, calls[..n]), calls[n].op);
    }
  }

  /** With substantive answers every intake ends. */
  lemma IntakeEnds(co: Coercions, full: bool, o: Opening, calls: seq<Call>)
    requires Launch(co, full, o).Ok?
    requires SubstantiveRun(co, Launched(Launch(co, full, o).value), calls)
    requires After(co, full, o, calls).doc.answers != []
    ensures var h := After(co, full, o, calls);
            && h.doc.pin.Some?
            && |h.settled| <= Capacity(h.doc.pin.value)
            && |h.doc.answers| <= 2 * Capacity(h.doc.pin.value)
  {
    IntakeIsBounded(co, full, o, calls);
    SubstantiveRunsCountNothing(co, full, o, calls);
  }

  // ----- neither condition can be dropped

  function Repeat(full: bool, op: Op, n: nat): (calls: seq<Call>)
    ensures |calls| == n && forall i | 0 <= i < n :: calls[i] == Call(full, op)
  {
    seq(n, _ => Call(full, op))
  }

  /** Nothing is left but a branchless free-text question for the one required fact that is still missing. */
  ghost predicate LastFreeText(co: Coercions, d: Doc, q: Question) {
    && d.status == InProgress && d.phase == QuestionsPhase && d.pin.Some? && d.current == Some(q.key)
    && FindQuestion(d.pin.value.questions, q.key) == Some(q)
    && q.kind.FreeText? && q.branch.None?
    && q.factKey in d.pin.value.required
    && (forall k :: k in d.pin.value.required ==> k == q.factKey || Captured(FactsOf(d.facts), k))
    && Producer(d.pin.value.questions, q.factKey) == Some(q)
    && d.queue == [] && q.key !in d.asked && Distinct(d.asked) && UniqueFacts(d.facts)
  }

  const Blank := Message(None, Some(Str("")), None)

  function EmptyAnswer(q: Question): Op {
    DoAnswer(Blank, Extraction([ExtractedFact(q.factKey, Str(""), 1.0)], None))
  }

  lemma EmptyAnswerSettles(co: Coercions, d: Doc, q: Question)
    requires LastFreeText(co, d, q)
    ensures Pending(d, Blank) == Some(q)
    ensures Judge(co, d.pin.value, d, q, Blank, EmptyAnswer(q).extraction)
            == Settled(SetFact(d.facts, FactFor(q.factKey, Str(""), FromAi, q.key, 1.0)), Str(""))
  {
    assert FillGaps(co, d.pin.value, q, d.facts, EmptyAnswer(q).extraction.facts) == d.facts;
  }

  /** The only fact still missing is the one just answered blank, so its question comes again. */
  lemma BlankComesAgain(co: Coercions, d: Doc, q: Question, facts: seq<Fact>)
    requires LastFreeText(co, d, q)
    requires facts == SetFact(d.facts, FactFor(q.factKey, Str(""), FromAi, q.key, 1.0))
    ensures var pin := d.pin.value; var settled := Settle(co, d, q, Blank, facts, Str(""));
            LastFreeText(co, Advance(co, pin, settled), q)
  {
    var pin := d.pin.value;
    var settled := Settle(co, d, q, Blank, facts, Str(""));
    SetFactKeepsUnique(d.facts, FactFor(q.factKey, Str(""), FromAi, q.key, 1.0));
    assert settled.queue == [];
    var missing := MissingRequired(pin.required, FactsOf(facts));
    MissingMembers(pin.required, FactsOf(facts));
    assert q.factKey in missing && forall k :: k in missing ==> k == q.factKey;
    assert Distinct(settled.asked);
    ReaskFinds(pin.questions, settled.asked, missing);
    FilterKeepsDistinct((k: string) => k != q.key, settled.asked);
    FilterMembers((k: string) => k != q.key, settled.asked);
  }

  lemma EmptyAnswerRepeats(co: Coercions, full: bool, h: History, q: Question)
    requires LastFreeText(co, h.doc, q)
    ensures var h' := Apply(co, full, h, EmptyAnswer(q));
            LastFreeText(co, h'.doc, q) && |h'.settled| == |h.settled| + 1
  {
    EmptyAnswerSettles(co, h.doc, q);
    BlankComesAgain(co, h.doc, q, SetFact(h.doc.facts, FactFor(q.factKey, Str(""), FromAi, q.key, 1.0)));
  }

  /** Empty answers to a required question are settled any number of times: the re-ask guard never stops them. */
  lemma {:induction false} EmptyAnswersNeverEnd(co: Coercions, full: bool, h: History, q: Question, n: nat)
    requires LastFreeText(co, h.doc, q)
    ensures var h' := Run(co, h, Repeat(full, EmptyAnswer(q), n));
            LastFreeText(co, h'.doc, q) && |h'.settled| == |h.settled| + n
  {
    if n > 0 {
      EmptyAnswersNeverEnd(co, full, h, q, n - 1);
      assert Repeat(full, EmptyAnswer(q), n)[..n - 1] == Repeat(full, EmptyAnswer(q), n - 1);
      EmptyAnswerRepeats(co, full, Run(co, h, Repeat(full, EmptyAnswer(q), n - 1)), q);
    }
  }

  /** A question is being asked and no clarification text is pending. */
  ghost predicate Awaiting(d: Doc) {
    && d.status == InProgress && d.phase == QuestionsPhase && d.pin.Some? && d.current.Some?
    && FindQuestion(d.pin.value.questions, d.current.value).Some? && !HasText(d.clarification)
  }

  const Mumble := DoAnswer(Message(None, None, Some("?")), Extraction([], Some("")))

  lemma EmptyClarificationRepeats(co: Coercions, full: bool, h: History)
    requires Awaiting(h.doc)
    ensures var h' := Apply(co, full, h, Mumble);
            && Awaiting(h'.doc) && h'.settled == h.settled && |h'.doc.answers| == |h.doc.answers| + 1
            && h'.doc.current == h.doc.current && h'.doc.facts == h.doc.facts
  {
    var q := Pending(h.doc, Mumble.message).value;
    assert NeedsExtraction(q, Mumble.message);
    assert Judge(co, h.doc.pin.value, h.doc, q, Mumble.message, Mumble.extraction) == Unclear(h.doc.facts);
  }

  /** A clarification without text does not count as asked, so any number of turns can pass on one question. */
  lemma {:induction false} EmptyClarificationsNeverEnd(co: Coercions, full: bool, h: History, n: nat)
    requires Awaiting(h.doc)
    ensures var h' := Run(co, h, Repeat(full, Mumble, n));
            && Awaiting(h'.doc) && h'.settled == h.settled && |h'.doc.answers| == |h.doc.answers| + n
            && h'.doc.current == h.doc.current
  {
    if n > 0 {
      EmptyClarificationsNeverEnd(co, full, h, n - 1);
      assert Repeat(full, Mumble, n)[..n - 1] == Repeat(full, Mumble, n - 1);
      EmptyClarificationRepeats(co, full, Run(co, h, Repeat(full, Mumble, n - 1)));
    }
  }

  // ----- and both happen

  /** A scenario that asks one free-text question for the one fact it requires. */
  function AloneWith(q: Question): Pin
    requires q.kind.FreeText? && q.branch.None?
  {
    PinnedContent([FlowNode(q.key, None)], [q.factKey], [q], PlainMatrix, [], map[])
  }

  function OpenedOn(q: Question): Opening
    requires q.kind.FreeText? && q.branch.None?
  {
    Opening(Some("What happened"), Some("role"), None, Some(Selection("role", "scenario", Default, AloneWith(q))))
  }

  lemma OpensOnFreeText(co: Coercions, full: bool, q: Question)
    requires q.kind.FreeText? && q.branch.None?
    ensures Launch(co, full, OpenedOn(q)).Ok?
    ensures var h := Launched(Launch(co, full, OpenedOn(q)).value);
            LastFreeText(co, h.doc, q) && Awaiting(h.doc) && h.doc.answers == []
  {
    var pin := AloneWith(q);
    assert InitialQueue(pin.flow) == [q.key];
    assert pin.flow[..0] == [] && GateOf(pin.flow, q.key) == None;
    assert FindQuestion(pin.questions, q.key) == Some(q);
    assert [q.key][1..] == [];
    assert NextQuestion(co.norm, pin.flow, pin.questions, [], map[], [q.key]) == (Some(q), []);
  }

  /**
   * Neither count in the bounds can be left out: on such a scenario, and for every n, some run settles n answers, and
   * some run has n turns accepted without a single answer settled.
   */
  lemma IntakeNeedNotEnd(co: Coercions, full: bool, q: Question, n: nat)
    requires q.kind.FreeText? && q.branch.None?
    ensures Launch(co, full, OpenedOn(q)).Ok?
    ensures var h := After(co, full, OpenedOn(q), Repeat(full, EmptyAnswer(q), n));
            |h.settled| == n && h.doc.status == InProgress
    ensures var h := After(co, full, OpenedOn(q), Repeat(full, Mumble, n)); |h.doc.answers| == n && h.settled == []
  {
    OpensOnFreeText(co, full, q);
    var h := Launched(Launch(co, full, OpenedOn(q)).value);
    EmptyAnswersNeverEnd(co, full, h, q, n);
    EmptyClarificationsNeverEnd(co, full, h, n);
  }
}
