/**
 * Whole runs of an intake: any sequence of operations, with any answers of the model, from any start.
 * Safety (what is asked, what is never lost, what is known at completion) and termination.
 */
module IntakeRuns {
  import opened Prelude
  import opened Conditions
  import opened Branching
  import opened RuleEngine
  import opened Intake

  // ----- runs

  datatype Op =
    | DoSetPersona(personaKey: string, sel: Option<Selection>)
    | DoDescribe(text: string, sel: Option<Selection>)
    | DoAnswer(message: Message, extraction: Extraction)
    | DoSubmit(explanation: string)
    | DoDecide(ruling: Ruling)

  function Perform(co: Coercions, full: bool, d: Doc, op: Op): Step {
    match op
    case DoSetPersona(personaKey, sel) => SetPersona(co, d, personaKey, sel)
    case DoDescribe(text, sel) => Describe(co, d, text, sel)
    case DoAnswer(m, x) => Answer(co, full, d, m, x)
    case DoSubmit(explanation) => Submit(co, full, d, explanation)
    case DoDecide(ruling) => Decide(co, full, d, ruling)
  }

  /** A question and the value it was settled with. */
  datatype Settlement = Settlement(question: Question, value: Value)

  /** The document, its audit log and the answers settled so far. */
  datatype History = History(doc: Doc, log: seq<Event>, settled: seq<Settlement>)

  function SettledBy(co: Coercions, d: Doc, op: Op): seq<Settlement> {
    if op.DoAnswer? && Pending(d, op.message).Some? then
      var q := Pending(d, op.message).value;
      match Judge(co, d.pin.value, d, q, op.message, op.extraction)
      case Settled(_, value) => [Settlement(q, value)]
      case _ => []
    else []
  }

  /** A refused operation leaves everything as it was. */
  function Apply(co: Coercions, full: bool, h: History, op: Op): History {
    match Perform(co, full, h.doc, op)
    case Ok(c) => History(c.doc, h.log + c.events, h.settled + SettledBy(co, h.doc, op))
    case Err(_) => h
  }

  /** One call of the service; `full` is whether the tenant's plan keeps a full audit at that moment. */
  datatype Call = Call(full: bool, op: Op)

  function Serve(co: Coercions, h: History, call: Call): History {
    Apply(co, call.full, h, call.op)
  }

  function Run(co: Coercions, h: History, calls: seq<Call>): History {
    if calls == [] then h
    else Serve(co, Run(co, h, calls[..|calls| - 1]), calls[|calls| - 1])
  }

  datatype Opening =
    Opening(text: Option<string>, chosen: Option<string>, proposed: Option<string>, sel: Option<Selection>)

  function Launch(co: Coercions, full: bool, o: Opening): Step {
    Start(co, full, o.text, o.chosen, o.proposed, o.sel)
  }

  function Launched(c: Commit): History {
    History(c.doc, c.events, [])
  }

  // ----- the invariant

  predicate Ungated(pin: Pin, key: string) {
    GateOf(pin.flow, key).None?
  }

  /** Every flow question, and every follow-up whose trigger matched a settled answer. */
  ghost predicate Owed(co: Coercions, pin: Pin, settled: seq<Settlement>, key: string) {
    || (exists n :: n in pin.flow && n.questionKey == key)
    || (exists s ::
       s in settled && Triggers(co.norm, s.question, s.value) && key in s.question.branch.value.questionKeys)
  }

  /** An owed key that nothing gates is asked, queued or current. */
  ghost predicate NothingLost(co: Coercions, pin: Pin, settled: seq<Settlement>, asked: seq<string>, queue: seq<string>,
                              current: Option<string>)
  {
    forall k :: Owed(co, pin, settled, k) && Ungated(pin, k) && k in KeysOf(pin.questions)
                ==> k in asked || k in queue || current == Some(k)
  }

  ghost predicate UniqueFacts(facts: seq<Fact>) {
    forall i, j :: 0 <= i < j < |facts| ==> facts[i].key != facts[j].key
  }

  /** Required facts that are captured, or that no pinned question could produce. */
  ghost predicate RequiredSettled(pin: Pin, facts: Facts) {
    forall k :: k in pin.required ==> Captured(facts, k) || Producer(pin.questions, k).None?
  }

  ghost predicate Fresh(h: History) {
    && h.doc.asked == [] && h.doc.facts == [] && h.doc.answers == [] && h.settled == [] && h.doc.status == InProgress
    && (h.doc.current.Some? ==> h.doc.pin.Some? && h.doc.current.value in KeysOf(h.doc.pin.value.questions))
  }

  ghost predicate Asking(co: Coercions, h: History) {
    var d := h.doc;
    && d.pin.Some? && d.current.Some?
    && d.current.value in KeysOf(d.pin.value.questions) && d.current.value !in d.asked
    && NothingLost(co, d.pin.value, h.settled, d.asked, d.queue, d.current)
  }

  ghost predicate Finished(co: Coercions, h: History) {
    var d := h.doc;
    && d.pin.Some? && d.current.None? && d.queue == []
    && RequiredSettled(d.pin.value, FactsOf(d.facts))
    && NothingLost(co, d.pin.value, h.settled, d.asked, d.queue, d.current)
  }

  /** What the asked list and the facts always satisfy. */
  ghost predicate Tidy(h: History) {
    && Distinct(h.doc.asked)
    && (h.doc.pin.Some? ==> Elements(h.doc.asked) <= KeysOf(h.doc.pin.value.questions))
    && (forall k :: k in h.doc.asked ==> exists s :: s in h.settled && s.question.key == k)
    && UniqueFacts(h.doc.facts)
  }

  ghost predicate Inv(co: Coercions, h: History) {
    && Tidy(h)
    && match h.doc.phase
       case QuestionsPhase => h.doc.status == InProgress && Asking(co, h)
       case DonePhase => h.doc.status != InProgress && Finished(co, h)
       case _ => Fresh(h)
  }

  // ----- facts stay keyed by fact

  lemma {:induction false} SetFactUnique(facts: seq<Fact>, f: Fact)
    requires UniqueFacts(facts)
    ensures UniqueFacts(SetFact(facts, f))
  {
    if facts != [] && facts[0].key != f.key {
      SetFactUnique(facts[1..], f);
      SetFactMembers(facts[1..], f);
      var rest := SetFact(facts[1..], f);
      forall j | 0 <= j < |rest| ensures rest[j].key != facts[0].key {
        assert rest[j] in rest;
      }
    }
  }

  lemma OverwriteHead<K, V>(m: map<K, V>, k: K, v: V, w: V)
    requires k !in m
    ensures (map[k := v] + m)[k := w] == map[k := w] + m
  {}

  lemma OverwriteTail<K, V>(m: map<K, V>, k: K, v: V, j: K, w: V)
    requires j != k
    ensures (map[k := v] + m)[j := w] == map[k := v] + m[j := w]
  {}

  lemma HeadKeyIsNew(f: Fact, rest: seq<Fact>)
    requires UniqueFacts([f] + rest)
    ensures f.key !in FactsOf(rest)
  {
    FactsOfDomain(rest);
    forall g | g in rest ensures g.key != f.key {
      var i :| 0 <= i < |rest| && rest[i] == g;
      assert ([f] + rest)[0].key != ([f] + rest)[i + 1].key;
    }
  }

  lemma {:induction false} SetFactStores(facts: seq<Fact>, f: Fact)
    requires UniqueFacts(facts)
    ensures FactsOf(SetFact(facts, f)) == FactsOf(facts)[f.key := f.value]
  {
    if facts != [] {
      var head, rest := facts[0], facts[1..];
      assert facts == [head] + rest;
      FactsOfCons(head, rest);
      if head.key == f.key {
        FactsOfCons(f, rest);
        HeadKeyIsNew(head, rest);
        OverwriteHead(FactsOf(rest), f.key, head.value, f.value);
      } else {
        SetFactStores(rest, f);
        FactsOfCons(head, SetFact(rest, f));
        OverwriteTail(FactsOf(rest), head.key, head.value, f.key, f.value);
      }
    }
  }

  lemma SetFactKeepsUnique(facts: seq<Fact>, f: Fact)
    requires UniqueFacts(facts)
    ensures UniqueFacts(SetFact(facts, f))
    ensures FactsOf(SetFact(facts, f)) == FactsOf(facts)[f.key := f.value]
  {
    SetFactUnique(facts, f);
    SetFactStores(facts, f);
  }

  lemma {:induction false} FactsOfDomain(facts: seq<Fact>)
    ensures forall k :: k in FactsOf(facts) <==> exists f :: f in facts && f.key == k
  {
    if facts != [] {
      FactsOfDomain(facts[..|facts| - 1]);
      assert facts == facts[..|facts| - 1] + [facts[|facts| - 1]];
    }
  }

  lemma {:induction false} FactsOfCons(f: Fact, rest: seq<Fact>)
    ensures FactsOf([f] + rest) == map[f.key := f.value] + FactsOf(rest)
  {
    if rest != [] {
      var n := |rest| - 1;
      FactsOfCons(f, rest[..n]);
      assert ([f] + rest)[..n + 1] == [f] + rest[..n];
    } else {
      assert [f] + rest == [f];
    }
  }

  lemma {:induction false} FillGapsKeepsUnique(co: Coercions, pin: Pin, q: Question, facts: seq<Fact>,
                                               xs: seq<ExtractedFact>)
    requires UniqueFacts(facts)
    ensures UniqueFacts(FillGaps(co, pin, q, facts, xs))
    ensures forall k :: k in FactsOf(facts) ==>
              k in FactsOf(FillGaps(co, pin, q, facts, xs))
                && FactsOf(FillGaps(co, pin, q, facts, xs))[k] == FactsOf(facts)[k]
    decreases |xs|
  {
    if xs != [] {
      var x := xs[0];
      if FillsGap(co, pin, q, facts, x) {
        var f := FactFor(x.key, x.value, FromAi, q.key, x.confidence);
        SetFactKeepsUnique(facts, f);
        FactsOfDomain(facts);
        FillGapsKeepsUnique(co, pin, q, SetFact(facts, f), xs[1..]);
      } else {
        FillGapsKeepsUnique(co, pin, q, facts, xs[1..]);
      }
    }
  }

  /** A judged answer keeps every other captured fact, and a settled one stores its value under the question's fact. */
  lemma JudgeKeepsFacts(co: Coercions, pin: Pin, d: Doc, q: Question, m: Message, x: Extraction)
    requires UniqueFacts(d.facts)
    ensures match Judge(co, pin, d, q, m, x)
            case Refused => true
            case Unclear(facts) =>
              && UniqueFacts(facts)
              && forall k :: Captured(FactsOf(d.facts), k) ==> Captured(FactsOf(facts), k)
            case Settled(facts, value) =>
              && UniqueFacts(facts)
              && q.factKey in FactsOf(facts) && FactsOf(facts)[q.factKey] == value
              && forall k :: k != q.factKey && Captured(FactsOf(d.facts), k) ==> Captured(FactsOf(facts), k)
  {
    FillGapsKeepsUnique(co, pin, q, d.facts, x.facts);
    if NeedsExtraction(q, m) {
      SetFactKeepsUnique(FillGaps(co, pin, q, d.facts, x.facts), ExtractedAnswer(co, q, m, x));
    } else {
      var v := StructuredValue(co, q, m.Raw());
      if v.Some? {
        SetFactKeepsUnique(d.facts, FactFor(q.factKey, v.value, FromChoice, q.key, 1.0));
      }
    }
  }

  // ----- choosing the next question keeps the invariant

  lemma {:induction false} ReaskFinds(questions: seq<Question>, asked: seq<string>, missing: seq<string>)
    requires Distinct(asked)
    ensures Reask(questions, asked, missing).None? <==> forall k :: k in missing ==> Producer(questions, k).None?
    ensures Reask(questions, asked, missing).Some? ==>
              exists k :: k in missing && Reask(questions, asked, missing) == Producer(questions, k)
  {
    if missing != [] {
      var p := Producer(questions, missing[0]);
      if p.Some? {
        DistinctCount(asked, p.value.key);
        assert missing[0] in missing;
      }
      ReaskFinds(questions, asked, missing[1..]);
      assert missing == [missing[0]] + missing[1..];
    }
  }

  /** A document whose owed questions are asked or queued, with no question current. */
  ghost predicate Ready(co: Coercions, h: History) {
    && h.doc.pin.Some? && h.doc.status == InProgress && Tidy(h)
    && NothingLost(co, h.doc.pin.value, h.settled, h.doc.asked, h.doc.queue, None)
  }

  lemma NextKeepsOwed(co: Coercions, h: History)
    requires Ready(co, h)
    ensures var pin := h.doc.pin.value;
            var r := NextQuestion(co.norm, pin.flow, pin.questions, h.doc.asked, FactsOf(h.doc.facts), h.doc.queue);
            NothingLost(co, pin, h.settled, h.doc.asked, r.1, if r.0.Some? then Some(r.0.value.key) else None)
  {
    var d, pin := h.doc, h.doc.pin.value;
    var facts := FactsOf(d.facts);
    var r := NextQuestion(co.norm, pin.flow, pin.questions, d.asked, facts, d.queue);
    NextIsFirstAskable(co.norm, pin.flow, pin.questions, d.asked, facts, d.queue);
    forall k | Owed(co, pin, h.settled, k) && Ungated(pin, k) && k in KeysOf(pin.questions) && k !in d.asked
      ensures k in r.1 || (r.0.Some? && r.0.value.key == k)
    {
      KeysAreFound(pin.questions, k);
      assert k in d.queue && Askable(co.norm, pin.flow, pin.questions, d.asked, facts, k);
      if r.0.Some? {
        var i :| 0 <= i < |d.queue| && d.queue[i] == k;
        var at := |d.queue| - |r.1| - 1;
        assert i >= at;
        assert i == at || r.1[i - at - 1] == k;
      }
    }
  }

  lemma AskingNextKeepsInv(co: Coercions, h: History, q: Question, queue: seq<string>)
    requires Ready(co, h)
    requires var pin := h.doc.pin.value;
             NextQuestion(co.norm, pin.flow, pin.questions, h.doc.asked, FactsOf(h.doc.facts), h.doc.queue)
               == (Some(q), queue)
    ensures Inv(co, h.(doc := h.doc.(queue := queue, current := Some(q.key), phase := QuestionsPhase)))
  {
    var pin := h.doc.pin.value;
    NextKeepsOwed(co, h);
    NextIsFirstAskable(co.norm, pin.flow, pin.questions, h.doc.asked, FactsOf(h.doc.facts), h.doc.queue);
    KeysAreFound(pin.questions, q.key);
  }

  lemma AskingAgainKeepsInv(co: Coercions, h: History, q: Question)
    requires Ready(co, h) && q in h.doc.pin.value.questions
    requires NothingLost(co, h.doc.pin.value, h.settled, h.doc.asked, [], None)
    ensures h.doc.phase == QuestionsPhase ==>
              Inv(co, h.(doc := h.doc.(queue := [], current := Some(q.key), asked := Without(h.doc.asked, q.key))))
    ensures Fresh(h) && !h.doc.phase.QuestionsPhase? && !h.doc.phase.DonePhase? ==>
              Inv(co, h.(doc := h.doc.(queue := [], current := Some(q.key), asked := Without(h.doc.asked, q.key))))
  {
    FilterKeepsDistinct((k: string) => k != q.key, h.doc.asked);
    FilterMembers((k: string) => k != q.key, h.doc.asked);
  }

  /** Advancing from a ready document either asks one question not yet asked, or finishes with nothing left to ask. */
  lemma AdvanceKeepsInv(co: Coercions, h: History)
    requires Ready(co, h)
    requires h.doc.phase == QuestionsPhase || (Fresh(h) && !h.doc.phase.DonePhase?)
    ensures Inv(co, h.(doc := Advance(co, h.doc.pin.value, h.doc)))
  {
    var d, pin := h.doc, h.doc.pin.value;
    var facts := FactsOf(d.facts);
    var r := NextQuestion(co.norm, pin.flow, pin.questions, d.asked, facts, d.queue);
    if r.0.Some? {
      AskingNextKeepsInv(co, h, r.0.value, r.1);
    } else {
      NextKeepsOwed(co, h);
      var missing := MissingRequired(pin.required, facts);
      MissingMembers(pin.required, facts);
      ReaskFinds(pin.questions, d.asked, missing);
      NextIsFirstAskable(co.norm, pin.flow, pin.questions, d.asked, facts, d.queue);
      var again := Reask(pin.questions, d.asked, missing);
      if again.Some? {
        AskingAgainKeepsInv(co, h, again.value);
      } else {
        assert RequiredSettled(pin, facts);
      }
    }
  }

  // ----- every operation keeps the invariant

  lemma PinnedIsReady(co: Coercions, h: History, sel: Selection)
    requires Fresh(h)
    ensures Ready(co, h.(doc := Pinned(h.doc, sel).(current := None)))
  {
    var queue := InitialQueue(sel.pin.flow);
    forall k | Owed(co, sel.pin, [], k) ensures k in queue {
      var n :| n in sel.pin.flow && n.questionKey == k;
      var i :| 0 <= i < |sel.pin.flow| && sel.pin.flow[i] == n;
      assert queue[i] == k;
    }
  }

  lemma BeginKeepsInv(co: Coercions, h: History, sel: Selection)
    requires Fresh(h) && !h.doc.phase.DonePhase? && Begin(co, h.doc, sel).Ok?
    ensures Inv(co, h.(doc := Begin(co, h.doc, sel).value.doc))
  {
    var ready := Pinned(h.doc, sel).(current := None);
    PinnedIsReady(co, h, sel);
    AdvanceIgnoresCurrent(co, sel.pin, ready, h.doc.current);
    assert ready.(current := h.doc.current) == Pinned(h.doc, sel);
    AdvanceKeepsInv(co, h.(doc := ready));
  }

  lemma AdvanceIgnoresCurrent(co: Coercions, pin: Pin, d: Doc, current: Option<string>)
    ensures Advance(co, pin, d.(current := current)) == Advance(co, pin, d)
  {}

  lemma AnswerKeepsInv(co: Coercions, full: bool, h: History, m: Message, x: Extraction)
    requires Inv(co, h)
    ensures Inv(co, Apply(co, full, h, DoAnswer(m, x)))
  {
    var d := h.doc;
    var pending := Pending(d, m);
    if pending.Some? {
      var q, pin := pending.value, d.pin.value;
      JudgeKeepsFacts(co, pin, d, q, m, x);
      match Judge(co, pin, d, q, m, x)
      case Refused =>
      case Unclear(_) =>
      case Settled(facts, value) =>
        var settled := Settle(co, d, q, m, facts, value);
        var log' := h.log
          + [AnsweredEvent(full, q, m, facts, ApplyBranch(co.norm, q, value, d.queue, settled.asked).1)];
        var h' := History(settled, log', h.settled + [Settlement(q, value)]);
        SettleIsReady(co, h, q, m, facts, value, log');
        AdvanceKeepsInv(co, h');
    }
  }

  lemma SettleIsReady(co: Coercions, h: History, q: Question, m: Message, facts: seq<Fact>, value: Value,
                      log: seq<Event>)
    requires Inv(co, h) && Pending(h.doc, m) == Some(q) && UniqueFacts(facts)
    ensures Ready(co, History(Settle(co, h.doc, q, m, facts, value), log, h.settled + [Settlement(q, value)]))
  {
    var d, pin := h.doc, h.doc.pin.value;
    var s := Settlement(q, value);
    var settled := h.settled + [s];
    var d' := Settle(co, d, q, m, facts, value);
    BranchComesFirst(co.norm, q, value, d.queue, d'.asked);
    forall k | Owed(co, pin, settled, k) && Ungated(pin, k) && k in KeysOf(pin.questions)
      ensures k in d'.asked || k in d'.queue
    {
      if !Owed(co, pin, h.settled, k) {
        assert Triggers(co.norm, q, value) && k in q.branch.value.questionKeys;
      }
    }
    forall k | k in d'.asked ensures exists t :: t in settled && t.question.key == k {
      if k in d.asked {
        var t :| t in h.settled && t.question.key == k;
        assert t in settled;
      } else {
        assert s in settled;
      }
    }
  }

  lemma SettingUpKeepsInv(co: Coercions, h: History, e: Doc, sel: Option<Selection>)
    requires Inv(co, h) && Fresh(h) && !h.doc.phase.QuestionsPhase? && !h.doc.phase.DonePhase?
    requires e == h.doc.(openingText := e.openingText, personaKey := e.personaKey, personaSource := e.personaSource)
    ensures AfterPersona(co, e, sel).Ok? ==> Inv(co, h.(doc := AfterPersona(co, e, sel).value.doc))
  {
    if HasText(e.openingText) && sel.Some? && Begin(co, e, sel.value).Ok? {
      BeginKeepsInv(co, h.(doc := e), sel.value);
    }
  }

  lemma ConcludingKeepsInv(co: Coercions, full: bool, h: History, op: Op)
    requires Inv(co, h) && (op.DoSubmit? || op.DoDecide?)
    ensures Inv(co, Apply(co, full, h, op))
  {
    var d' := Apply(co, full, h, op).doc;
    assert d' == h.doc || (h.doc.status != InProgress && d'.status != InProgress);
    assert d'
           == h.doc.(result := d'.result, status := d'.status, decision := d'.decision, escalatedTo := d'.escalatedTo);
  }

  /** The invariant does not look at the log. */
  lemma LogIsFree(co: Coercions, h: History, log: seq<Event>)
    requires Inv(co, h)
    ensures Inv(co, h.(log := log))
  {}

  lemma ChoosingPersonaKeepsInv(co: Coercions, full: bool, h: History, personaKey: string, sel: Option<Selection>)
    requires Inv(co, h)
    ensures Inv(co, Apply(co, full, h, DoSetPersona(personaKey, sel)))
  {
    var h' := Apply(co, full, h, DoSetPersona(personaKey, sel));
    if h' != h {
      SettingUpKeepsInv(co, h, h.doc.(personaKey := Some(personaKey), personaSource := Some(ByUser)), sel);
      LogIsFree(co, h.(doc := h'.doc), h'.log);
    }
  }

  lemma DescribingSetsUp(co: Coercions, d: Doc, text: string, sel: Option<Selection>)
    requires Describe(co, d, text, sel).Ok?
    ensures d.phase.DescribePhase? && AfterPersona(co, d.(openingText := Some(text)), sel) == Describe(co, d, text, sel)
  {}

  lemma DescribingKeepsInv(co: Coercions, full: bool, h: History, text: string, sel: Option<Selection>)
    requires Inv(co, h)
    ensures Inv(co, Apply(co, full, h, DoDescribe(text, sel)))
  {
    var step := Describe(co, h.doc, text, sel);
    if step.Ok? {
      DescribingSetsUp(co, h.doc, text, sel);
      SettingUpKeepsInv(co, h, h.doc.(openingText := Some(text)), sel);
      LogIsFree(co, h.(doc := step.value.doc), h.log + step.value.events);
    }
  }

  lemma ApplyKeepsInv(co: Coercions, full: bool, h: History, op: Op)
    requires Inv(co, h)
    ensures Inv(co, Apply(co, full, h, op))
  {
    match op
    case DoAnswer(m, x) => AnswerKeepsInv(co, full, h, m, x);
    case DoSubmit(_) => ConcludingKeepsInv(co, full, h, op);
    case DoDecide(_) => ConcludingKeepsInv(co, full, h, op);
    case DoSetPersona(personaKey, sel) => ChoosingPersonaKeepsInv(co, full, h, personaKey, sel);
    case DoDescribe(text, sel) => DescribingKeepsInv(co, full, h, text, sel);
  }

  lemma LaunchEstablishesInv(co: Coercions, full: bool, o: Opening)
    requires Launch(co, full, o).Ok?
    ensures Inv(co, Launched(Launch(co, full, o).value))
  {
    if o.chosen.Some? && HasText(o.text) {
      var e := NewDoc.(openingText := o.text, personaKey := o.chosen, personaSource := Some(ByUser));
      BeginKeepsInv(co, History(e, [], []), o.sel.value);
    }
  }

  /** The invariant holds after every run, however the tenant's plan changes on the way. */
  lemma {:induction false} RunsKeepInv(co: Coercions, full: bool, o: Opening, calls: seq<Call>)
    requires Launch(co, full, o).Ok?
    ensures Inv(co, Run(co, Launched(Launch(co, full, o).value), calls))
  {
    if calls == [] {
      LaunchEstablishesInv(co, full, o);
    } else {
      var n := |calls| - 1;
      RunsKeepInv(co, full, o, calls[..n]);
      ApplyKeepsInv(co, calls[n].full, Run(co, Launched(Launch(co, full, o).value), calls[..n]), calls[n].op);
    }
  }

  // ----- what completion means

  function After(co: Coercions, full: bool, o: Opening, calls: seq<Call>): History
    requires Launch(co, full, o).Ok?
  {
    Run(co, Launched(Launch(co, full, o).value), calls)
  }

  /** The asked list never repeats a key and never holds the question being asked. */
  lemma AskedOnce(co: Coercions, full: bool, o: Opening, calls: seq<Call>)
    requires Launch(co, full, o).Ok?
    ensures var d := After(co, full, o, calls).doc;
            && Distinct(d.asked)
            && (d.current.Some? ==> d.current.value !in d.asked && d.pin.Some?
                                    && d.current.value in KeysOf(d.pin.value.questions))
            && forall k :: multiset(d.asked)[k] < 2
  {
    RunsKeepInv(co, full, o, calls);
    var d := After(co, full, o, calls).doc;
    forall k ensures multiset(d.asked)[k] < 2 { DistinctCount(d.asked, k); }
  }

  /** Until intake completes, every owed question is answered, queued or being asked; then all of them are answered. */
  lemma NothingOwedIsLost(co: Coercions, full: bool, o: Opening, calls: seq<Call>, key: string)
    requires Launch(co, full, o).Ok?
    requires var h := After(co, full, o, calls);
             && (h.doc.phase.QuestionsPhase? || h.doc.phase.DonePhase?)
             && h.doc.pin.Some? && Ungated(h.doc.pin.value, key) && key in KeysOf(h.doc.pin.value.questions)
             && Owed(co, h.doc.pin.value, h.settled, key)
    ensures var h := After(co, full, o, calls);
            if h.doc.status == InProgress
            then key in h.doc.asked || key in h.doc.queue || h.doc.current == Some(key)
            else exists s :: s in h.settled && s.question.key == key
  {
    RunsKeepInv(co, full, o, calls);
  }

  /** Past the intake, a required fact is missing only if no pinned question produces it. */
  lemma RequiredFactsAtCompletion(co: Coercions, full: bool, o: Opening, calls: seq<Call>)
    requires Launch(co, full, o).Ok? && After(co, full, o, calls).doc.status != InProgress
    ensures var d := After(co, full, o, calls).doc;
            d.pin.Some? && forall k :: k in d.pin.value.required
                             ==> Captured(FactsOf(d.facts), k) || Unproducible(d.pin.value.questions, k)
  {
    RunsKeepInv(co, full, o, calls);
    var d := After(co, full, o, calls).doc;
    forall k | k in d.pin.value.required
      ensures Captured(FactsOf(d.facts), k) || Unproducible(d.pin.value.questions, k)
    {
      ProducerFails(d.pin.value.questions, k);
    }
  }

  /**
   * A completed intake is refused for missing facts exactly when a required fact that nothing pinned produces is
   * missing.
   */
  lemma SubmitRefusesOnlyTheUnproducible(co: Coercions, full: bool, o: Opening, calls: seq<Call>, explanation: string)
    requires Launch(co, full, o).Ok? && After(co, full, o, calls).doc.status == IntakeComplete
    ensures var d := After(co, full, o, calls).doc;
            && d.pin.Some?
            && (Submit(co, full, d, explanation).Err?
                <==> exists k :: k in d.pin.value.required && !Captured(FactsOf(d.facts), k)
                                 && Unproducible(d.pin.value.questions, k))
  {
    RequiredFactsAtCompletion(co, full, o, calls);
    var d := After(co, full, o, calls).doc;
    var missing := MissingRequired(d.pin.value.required, FactsOf(d.facts));
    MissingMembers(d.pin.value.required, FactsOf(d.facts));
    if missing != [] {
      assert missing[0] in missing;
    }
  }

  // ----- how an intake gets under way

  lemma UngatedComesFirst(co: Coercions, pin: Pin)
    ensures NextQuestion(co.norm, pin.flow, pin.questions, [], map[], InitialQueue(pin.flow)).0.Some?
            <==> exists n :: n in pin.flow && Ungated(pin, n.questionKey)
  {
    var queue := InitialQueue(pin.flow);
    var r := NextQuestion(co.norm, pin.flow, pin.questions, [], map[], queue);
    NextIsFirstAskable(co.norm, pin.flow, pin.questions, [], map[], queue);
    if r.0.None? {
      forall n | n in pin.flow ensures !Ungated(pin, n.questionKey) {
        var i :| 0 <= i < |pin.flow| && pin.flow[i] == n;
        KeysAreFound(pin.questions, n.questionKey);
        assert queue[i] == n.questionKey && !Askable(co.norm, pin.flow, pin.questions, [], map[], queue[i]);
      }
    } else {
      var at := |queue| - |r.1| - 1;
      assert queue[at] == pin.flow[at].questionKey && Ungated(pin, pin.flow[at].questionKey);
    }
  }

  /** Some flow question has no gate. */
  ghost predicate StartsQuestions(pin: Pin) {
    exists n :: n in pin.flow && Ungated(pin, n.questionKey)
  }

  /** Some required fact has a pinned producer. */
  ghost predicate HasProducible(pin: Pin) {
    exists k :: k in pin.required && Producer(pin.questions, k).Some?
  }

  /** Every flow question is gated, and yet there is a question to ask for a required fact. */
  ghost predicate Stalls(pin: Pin) {
    !StartsQuestions(pin) && HasProducible(pin)
  }

  /** No question has been asked, and the phase says that none will be. */
  ghost predicate Idle(h: History) {
    Fresh(h) && (h.doc.phase.PersonaPhase? || h.doc.phase.DescribePhase?)
  }

  /** A scenario is selected and a question is current, but the phase still waits for a persona or a description. */
  ghost predicate Stalled(h: History) {
    Idle(h) && h.doc.pin.Some? && h.doc.current.Some?
  }

  /** How a selection of `pin` leaves the document: in the questions, done at once, or stalled. */
  ghost predicate SetOff(h: History, pin: Pin) {
    && h.doc.pin == Some(pin) && h.settled == []
    && (h.doc.phase.QuestionsPhase? <==> StartsQuestions(pin))
    && (h.doc.phase.DonePhase? <==> !StartsQuestions(pin) && !HasProducible(pin))
    && (Stalled(h) <==> Stalls(pin))
  }

  /**
   * Selecting a scenario starts the questions exactly when some flow question has no gate. Otherwise it
   * completes at once if no required fact has a pinned producer, and if one has, the intake stalls: a
   * question is current, but the phase has not moved.
   */
  lemma BeginStartsQuestions(co: Coercions, h: History, sel: Selection)
    requires Idle(h) && Begin(co, h.doc, sel).Ok?
    ensures var d := Begin(co, h.doc, sel).value.doc;
            && SetOff(h.(doc := d), sel.pin) && d.openingText == h.doc.openingText
            && (Stalls(sel.pin) ==> d.phase == h.doc.phase)
  {
    UngatedComesFirst(co, sel.pin);
    assert FactsOf([]) == map[];
    var missing := MissingRequired(sel.pin.required, map[]);
    MissingMembers(sel.pin.required, map[]);
    ReaskFinds(sel.pin.questions, [], missing);
    var again := Reask(sel.pin.questions, [], missing);
    assert again.Some? <==> HasProducible(sel.pin);
    BeginIsFresh(co, h, sel);
  }

  lemma BeginIsFresh(co: Coercions, h: History, sel: Selection)
    requires Idle(h) && Begin(co, h.doc, sel).Ok?
    ensures var d := Begin(co, h.doc, sel).value.doc;
            Stalls(sel.pin) && !d.phase.QuestionsPhase? && !d.phase.DonePhase?
            ==> Fresh(h.(doc := d)) && d.current.Some?
  {
    BeginKeepsInv(co, h, sel);
    UngatedComesFirst(co, sel.pin);
    assert FactsOf([]) == map[];
  }

  // ----- what gets a stalled intake under way

  /** The operation a message amounts to in this phase. */
  function RoutedOp(co: Coercions, d: Doc, m: Message, x: Extraction, dir: Directory): Op {
    match d.phase
    case PersonaPhase =>
      var key := PersonaNamed(co, m);
      DoSetPersona(key, if HasText(d.openingText) then dir.select(key, d.openingText.value) else None)
    case DescribePhase =>
      var text := DescriptionGiven(co, m);
      DoDescribe(text, if d.personaKey.Some? then dir.select(d.personaKey.value, text) else None)
    case _ => DoAnswer(m, x)
  }

  /** A message that is accepted is one of the operations of a run, so all that holds of runs holds of messages. */
  lemma MessagesAreOperations(co: Coercions, full: bool, d: Doc, m: Message, x: Extraction, dir: Directory)
    ensures Receive(co, full, d, m, x, dir).Ok?
            ==> Receive(co, full, d, m, x, dir) == Perform(co, full, d, RoutedOp(co, d, m, x, dir))
  {}

  /**
   * Only another selection moves a stalled intake: choosing a persona or describing the incident again is all that is
   * accepted, and it starts the questions, completes the intake or leaves it stalled according to the scenario
   * selected.
   */
  lemma StalledMoves(co: Coercions, full: bool, h: History, op: Op)
    requires Stalled(h) && HasText(h.doc.openingText) && Perform(co, full, h.doc, op).Ok?
    ensures op.DoSetPersona? || op.DoDescribe?
    ensures op.sel.Some? && SetOff(Apply(co, full, h, op), op.sel.value.pin)
            && HasText(Apply(co, full, h, op).doc.openingText)
  {
    match op
    case DoSetPersona(_, _) => StalledSetsPersona(co, full, h, op);
    case DoDescribe(_, _) => StalledDescribes(co, full, h, op);
    case _ =>
  }

  lemma StalledSetsPersona(co: Coercions, full: bool, h: History, op: Op)
    requires Stalled(h) && HasText(h.doc.openingText) && op.DoSetPersona? && Perform(co, full, h.doc, op).Ok?
    ensures op.sel.Some? && SetOff(Apply(co, full, h, op), op.sel.value.pin)
            && HasText(Apply(co, full, h, op).doc.openingText)
  {
    var e := h.doc.(personaKey := Some(op.personaKey), personaSource := Some(ByUser));
    BeginStartsQuestions(co, h.(doc := e), op.sel.value);
    LogIsFreeHere(h.(doc := Begin(co, e, op.sel.value).value.doc), Apply(co, full, h, op), op.sel.value.pin);
  }

  lemma StalledDescribes(co: Coercions, full: bool, h: History, op: Op)
    requires Stalled(h) && op.DoDescribe? && Perform(co, full, h.doc, op).Ok?
    ensures op.sel.Some? && SetOff(Apply(co, full, h, op), op.sel.value.pin)
            && HasText(Apply(co, full, h, op).doc.openingText)
  {
    var e := h.doc.(openingText := Some(op.text));
    BeginStartsQuestions(co, h.(doc := e), op.sel.value);
    LogIsFreeHere(h.(doc := Begin(co, e, op.sel.value).value.doc), Apply(co, full, h, op), op.sel.value.pin);
  }

  lemma LogIsFreeHere(h: History, t: History, pin: Pin)
    requires SetOff(h, pin) && t.doc == h.doc && t.settled == h.settled
    ensures SetOff(t, pin)
  {}

  /** So a message to a stalled intake is refused, or selects a scenario anew. */
  lemma StalledReceives(co: Coercions, full: bool, h: History, m: Message, x: Extraction, dir: Directory)
    requires Stalled(h) && HasText(h.doc.openingText) && Receive(co, full, h.doc, m, x, dir).Ok?
    ensures var c := Receive(co, full, h.doc, m, x, dir).value;
            c.doc.pin.Some? && SetOff(History(c.doc, h.log + c.events, h.settled), c.doc.pin.value)
  {
    MessagesAreOperations(co, full, h.doc, m, x, dir);
    StalledMoves(co, full, h, RoutedOp(co, h.doc, m, x, dir));
  }

  /** A launch with a text and a persona stalls whenever the scenario selected for them does. */
  lemma LaunchStalls(co: Coercions, full: bool, o: Opening)
    requires o.chosen.Some? && HasText(o.text) && o.sel.Some? && Some(o.sel.value.personaKey) == o.chosen
    requires Stalls(o.sel.value.pin) && o.sel.value.pin.questions != []
    ensures Launch(co, full, o).Ok?
    ensures var h := Launched(Launch(co, full, o).value); Stalled(h) && HasText(h.doc.openingText)
  {
    var e := NewDoc.(openingText := o.text, personaKey := o.chosen, personaSource := Some(ByUser));
    BeginStartsQuestions(co, History(e, [], []), o.sel.value);
  }

  /** Whatever selection the operation brings along would stall. */
  ghost predicate OnlyStalls(op: Op) {
    (op.DoSetPersona? || op.DoDescribe?) && op.sel.Some? ==> Stalls(op.sel.value.pin)
  }

  lemma SettingUpStaysIdle(co: Coercions, h: History, e: Doc, sel: Option<Selection>)
    requires Idle(h)
             && e == h.doc.(openingText := e.openingText, personaKey := e.personaKey, personaSource := e.personaSource)
    requires sel.Some? ==> Stalls(sel.value.pin)
    ensures AfterPersona(co, e, sel).Ok? ==> Idle(h.(doc := AfterPersona(co, e, sel).value.doc))
  {
    if HasText(e.openingText) && sel.Some? && Begin(co, e, sel.value).Ok? {
      BeginStartsQuestions(co, h.(doc := e), sel.value);
    }
  }

  lemma StaysIdle(co: Coercions, full: bool, h: History, op: Op)
    requires Idle(h) && OnlyStalls(op)
    ensures Idle(Apply(co, full, h, op))
  {
    match op
    case DoSetPersona(personaKey, sel) =>
      SettingUpStaysIdle(co, h, h.doc.(personaKey := Some(personaKey), personaSource := Some(ByUser)), sel);
    case DoDescribe(text, sel) => SettingUpStaysIdle(co, h, h.doc.(openingText := Some(text)), sel);
    case _ =>
  }

  /** However long the run: while every scenario on offer stalls, no question is ever put and nothing is completed. */
  lemma {:induction false} NeverUnderWay(co: Coercions, full: bool, o: Opening, calls: seq<Call>)
    requires Launch(co, full, o).Ok? && (o.sel.Some? ==> Stalls(o.sel.value.pin))
    requires forall i :: 0 <= i < |calls| ==> OnlyStalls(calls[i].op)
    ensures Idle(After(co, full, o, calls))
  {
    if calls == [] {
      var chosen := NewDoc.(openingText := o.text, personaKey := o.chosen, personaSource := Some(ByUser));
      SettingUpStaysIdle(co, History(NewDoc, [], []), chosen, o.sel);
    } else {
      var n := |calls| - 1;
      NeverUnderWay(co, full, o, calls[..n]);
      StaysIdle(co, calls[n].full, After(co, full, o, calls[..n]), calls[n].op);
    }
  }
}
