/**
 * What one message of an intake leaves behind (src/modules/assessments/service.ts:148-176, 424-531), in terms of the
 * document, the message and what the model extracted: which value is stored for which answer, what else is recorded,
 * and which question comes next.
 */
module AnswerLaws {
  import opened Prelude
  import opened Conditions
  import opened Branching
  import opened Intake
  import opened IntakeRuns

  // ----- which question comes next

  /** The key can be asked now: it was not, there is such a question, and its gate is open. */
  predicate CanAsk(co: Coercions, pin: Pin, d: Doc, key: string) {
    key !in d.asked && key in KeysOf(pin.questions) && GateOpen(co.norm, pin.flow, key, FactsOf(d.facts))
  }

  predicate FirstToAsk(co: Coercions, pin: Pin, d: Doc, i: nat) {
    i < |d.queue| && CanAsk(co, pin, d, d.queue[i]) && forall j :: 0 <= j < i ==> !CanAsk(co, pin, d, d.queue[j])
  }

  predicate FirstAbout(questions: seq<Question>, fact: string, n: nat) {
    n < |questions| && questions[n].factKey == fact && forall j :: 0 <= j < n ==> questions[j].factKey != fact
  }

  /** Question `n` is asked for once more because of required fact `i`, which is missing. */
  predicate AsksAgain(pin: Pin, d: Doc, i: nat, n: nat) {
    && i < |pin.required| && !Captured(FactsOf(d.facts), pin.required[i])
    && FirstAbout(pin.questions, pin.required[i], n) && multiset(d.asked)[pin.questions[n].key] < 2
  }

  ghost predicate FirstToRepeat(pin: Pin, d: Doc, i: nat, n: nat) {
    AsksAgain(pin, d, i, n) && forall j: nat, k: nat :: j < i ==> !AsksAgain(pin, d, j, k)
  }

  /**
   * `e` is `d` moved on: to the first queued question that can be asked; else to the question about the first missing
   * required fact that has one; else to the end of the intake. Nothing else changes.
   */
  ghost predicate MovedOn(co: Coercions, pin: Pin, d: Doc, e: Doc) {
    && e == d.(queue := e.queue, current := e.current, asked := e.asked, phase := e.phase, status := e.status)
    && (forall i: nat :: FirstToAsk(co, pin, d, i) ==>
          && e.current == Some(d.queue[i]) && e.queue == d.queue[i + 1..] && e.phase == QuestionsPhase
          && e.asked == d.asked && e.status == d.status)
    && ((forall i: nat :: !FirstToAsk(co, pin, d, i)) ==> RepeatsOrEnds(pin, d, e))
  }

  ghost predicate RepeatsOrEnds(pin: Pin, d: Doc, e: Doc) {
    && e.queue == []
    && (forall i: nat, n: nat :: FirstToRepeat(pin, d, i, n) ==>
          && e.current == Some(pin.questions[n].key) && e.phase == d.phase && e.status == d.status
          && e.asked == Filter((k: string) => k != pin.questions[n].key, d.asked))
    && ((forall i: nat, n: nat :: !FirstToRepeat(pin, d, i, n)) ==>
          e.current == None && e.phase == DonePhase && e.status == IntakeComplete && e.asked == d.asked)
  }

  lemma CanAskMeans(co: Coercions, pin: Pin, d: Doc, key: string)
    ensures CanAsk(co, pin, d, key) <==> Askable(co.norm, pin.flow, pin.questions, d.asked, FactsOf(d.facts), key)
  {
    KeysAreFound(pin.questions, key);
  }

  lemma FirstToAskIsOne(co: Coercions, pin: Pin, d: Doc, i: nat, j: nat)
    requires FirstToAsk(co, pin, d, i) && FirstToAsk(co, pin, d, j)
    ensures i == j
  {}

  lemma NextMeans(co: Coercions, pin: Pin, d: Doc)
    ensures var r := NextQuestion(co.norm, pin.flow, pin.questions, d.asked, FactsOf(d.facts), d.queue);
            match r.0
            case None => r.1 == [] && forall i: nat :: !FirstToAsk(co, pin, d, i)
            case Some(q) =>
              exists i: nat :: FirstToAsk(co, pin, d, i) && q.key == d.queue[i] && r.1 == d.queue[i + 1..]
  {
    var r := NextQuestion(co.norm, pin.flow, pin.questions, d.asked, FactsOf(d.facts), d.queue);
    NextIsFirstAskable(co.norm, pin.flow, pin.questions, d.asked, FactsOf(d.facts), d.queue);
    forall i | 0 <= i < |d.queue|
      ensures CanAsk(co, pin, d, d.queue[i])
              <==> Askable(co.norm, pin.flow, pin.questions, d.asked, FactsOf(d.facts), d.queue[i])
    {
      CanAskMeans(co, pin, d, d.queue[i]);
    }
    if r.0.Some? {
      assert FirstToAsk(co, pin, d, |d.queue| - |r.1| - 1);
    }
  }

  lemma {:induction false} ProducerMeans(questions: seq<Question>, fact: string)
    ensures match Producer(questions, fact)
            case None => forall n: nat :: !FirstAbout(questions, fact, n)
            case Some(q) => exists n: nat :: FirstAbout(questions, fact, n) && questions[n] == q
  {
    if questions != [] {
      var rest := questions[1..];
      ProducerMeans(rest, fact);
      if questions[0].factKey == fact {
        assert FirstAbout(questions, fact, 0);
      } else if Producer(rest, fact).Some? {
        var n: nat :| FirstAbout(rest, fact, n) && rest[n] == Producer(rest, fact).value;
        assert FirstAbout(questions, fact, n + 1);
      } else {
        forall n: nat ensures !FirstAbout(questions, fact, n) {
          assert FirstAbout(questions, fact, n) ==> n > 0 && FirstAbout(rest, fact, n - 1);
        }
      }
    }
  }

  lemma FirstAboutIsOne(questions: seq<Question>, fact: string, m: nat, n: nat)
    requires FirstAbout(questions, fact, m) && FirstAbout(questions, fact, n)
    ensures m == n
  {}

  /** The part of `FirstToRepeat` that concerns the required facts from place `at` on. */
  ghost predicate RepeatFrom(pin: Pin, d: Doc, at: nat, i: nat, n: nat) {
    at <= i && AsksAgain(pin, d, i, n) && forall j: nat, k: nat :: at <= j < i ==> !AsksAgain(pin, d, j, k)
  }

  lemma {:induction false} ReaskMeans(pin: Pin, d: Doc, at: nat)
    requires at <= |pin.required|
    ensures match Reask(pin.questions, d.asked, MissingRequired(pin.required[at..], FactsOf(d.facts)))
            case None => forall i: nat, n: nat :: at <= i ==> !AsksAgain(pin, d, i, n)
            case Some(q) => exists i: nat, n: nat :: RepeatFrom(pin, d, at, i, n) && pin.questions[n] == q
    decreases |pin.required| - at
  {
    if at < |pin.required| {
      var facts := FactsOf(d.facts);
      var rest := MissingRequired(pin.required[at + 1..], facts);
      var q := Reask(pin.questions, d.asked, MissingRequired(pin.required[at..], facts));
      assert pin.required[at..][1..] == pin.required[at + 1..];
      ReaskMeans(pin, d, at + 1);
      ProducerMeans(pin.questions, pin.required[at]);
      ReaskStep(pin, d, at);
      if exists n: nat :: AsksAgain(pin, d, at, n) {
        var n: nat :| AsksAgain(pin, d, at, n);
        assert RepeatFrom(pin, d, at, at, n);
      } else if q.Some? {
        var i: nat, n: nat :| RepeatFrom(pin, d, at + 1, i, n) && pin.questions[n] == q.value;
        assert RepeatFrom(pin, d, at, i, n);
      }
    }
  }

  lemma ReaskStep(pin: Pin, d: Doc, at: nat)
    requires at < |pin.required|
    ensures var facts := FactsOf(d.facts);
            var rest := MissingRequired(pin.required[at + 1..], facts);
            var q := Reask(pin.questions, d.asked, MissingRequired(pin.required[at..], facts));
            && (forall n: nat :: AsksAgain(pin, d, at, n) ==> q == Some(pin.questions[n]))
            && ((forall n: nat :: !AsksAgain(pin, d, at, n)) ==> q == Reask(pin.questions, d.asked, rest))
  {
    var facts := FactsOf(d.facts);
    var fact := pin.required[at];
    var missing := MissingRequired(pin.required[at..], facts);
    var rest := MissingRequired(pin.required[at + 1..], facts);
    assert pin.required[at..] == [fact] + pin.required[at + 1..];
    assert missing == if Captured(facts, fact) then rest else [fact] + rest;
    ProducerMeans(pin.questions, fact);
    if !Captured(facts, fact) {
      assert missing[0] == fact && missing[1..] == rest;
      forall n: nat | AsksAgain(pin, d, at, n) ensures Producer(pin.questions, fact) == Some(pin.questions[n]) {
        var k: nat :| FirstAbout(pin.questions, fact, k) && pin.questions[k] == Producer(pin.questions, fact).value;
        FirstAboutIsOne(pin.questions, fact, k, n);
      }
      if Producer(pin.questions, fact).Some? {
        var k: nat :| FirstAbout(pin.questions, fact, k) && pin.questions[k] == Producer(pin.questions, fact).value;
        assert multiset(d.asked)[pin.questions[k].key] < 2 ==> AsksAgain(pin, d, at, k);
      }
    }
  }

  lemma FirstToRepeatIsOne(pin: Pin, d: Doc, i: nat, n: nat, j: nat, m: nat)
    requires FirstToRepeat(pin, d, i, n) && FirstToRepeat(pin, d, j, m)
    ensures i == j && n == m
  {
    assert j >= i;
    assert i >= j;
    FirstAboutIsOne(pin.questions, pin.required[i], n, m);
  }

  lemma AdvanceMovesOn(co: Coercions, pin: Pin, d: Doc)
    ensures MovedOn(co, pin, d, Advance(co, pin, d))
  {
    NextMeans(co, pin, d);
    ReaskMeans(pin, d, 0);
    assert pin.required[0..] == pin.required;
    var e := Advance(co, pin, d);
    forall i: nat | FirstToAsk(co, pin, d, i)
      ensures e.current == Some(d.queue[i]) && e.queue == d.queue[i + 1..] && e.phase == QuestionsPhase
              && e.asked == d.asked && e.status == d.status
    {
      var r := NextQuestion(co.norm, pin.flow, pin.questions, d.asked, FactsOf(d.facts), d.queue);
      var k: nat :| FirstToAsk(co, pin, d, k) && r.0.value.key == d.queue[k] && r.1 == d.queue[k + 1..];
      FirstToAskIsOne(co, pin, d, i, k);
    }
    if forall i: nat :: !FirstToAsk(co, pin, d, i) {
      RepeatOrEnd(co, pin, d);
    }
  }

  lemma RepeatOrEnd(co: Coercions, pin: Pin, d: Doc)
    requires forall i: nat :: !FirstToAsk(co, pin, d, i)
    ensures RepeatsOrEnds(pin, d, Advance(co, pin, d))
  {
    NextMeans(co, pin, d);
    ReaskMeans(pin, d, 0);
    assert pin.required[0..] == pin.required;
    var q := Reask(pin.questions, d.asked, MissingRequired(pin.required, FactsOf(d.facts)));
    if q.Some? {
      var i: nat, n: nat :| RepeatFrom(pin, d, 0, i, n) && pin.questions[n] == q.value;
      assert FirstToRepeat(pin, d, i, n);
      forall j: nat, m: nat | FirstToRepeat(pin, d, j, m) ensures m == n {
        FirstToRepeatIsOne(pin, d, i, n, j, m);
      }
    }
  }

  // ----- the message and the question it answers

  /** Message `m` answers question `q` now: the one being asked, which it names if it names any. */
  predicate Answers(d: Doc, m: Message, q: Question) {
    && d.status == InProgress && d.phase == QuestionsPhase && d.pin.Some? && d.current.Some?
    && (m.questionKey.None? || m.questionKey == d.current)
    && q in d.pin.value.questions && q.key == d.current.value
  }

  lemma PendingMeans(d: Doc, m: Message, q: Question)
    ensures Pending(d, m) == Some(q) <==> Answers(d, m, q)
  {
    if d.pin.Some? && d.current.Some? {
      var questions := d.pin.value.questions;
      FindQuestionFails(questions, d.current.value);
      if q in questions && q.key == d.current.value {
        OneQuestionPerKey(questions, q, FindQuestion(questions, d.current.value).value);
      }
    }
  }

  lemma OneQuestionPerKey(questions: seq<Question>, q: Question, r: Question)
    requires forall i, j :: 0 <= i < j < |questions| ==> questions[i].key != questions[j].key
    requires q in questions && r in questions && q.key == r.key
    ensures q == r
  {}

  /** What a message says: the value it carries, or else its text. */
  function Given(m: Message): Value {
    match m.value
    case Some(v) => v
    case None => if m.text.Some? then Str(m.text.value) else Null
  }

  /** The answer is read by the model: a free text, or words typed where a value was asked for. */
  predicate InWords(q: Question, m: Message) {
    q.kind == FreeText || (m.value.None? && m.text.Some? && m.text.value != "")
  }

  // ----- what a settled answer leaves behind

  /** The follow-ups that an answer with this value brings in. */
  function FollowUps(co: Coercions, d: Doc, q: Question, w: Value): seq<string> {
    if q.branch.Some? && Normalize(co.norm, w) == Normalize(co.norm, q.branch.value.onValue)
    then Filter((k: string) => k !in d.asked + [q.key] && k !in d.queue, q.branch.value.questionKeys)
    else []
  }

  /** The document with the answer recorded, before it moves on. */
  function Recorded(co: Coercions, d: Doc, q: Question, m: Message, facts: seq<Fact>, w: Value): Doc {
    d.(answers := d.answers + [AnswerRecord(q.key, Given(m))], facts := facts, clarification := None,
       asked := d.asked + [q.key], queue := FollowUps(co, d, q, w) + d.queue)
  }

  /** One event, which under full auditing tells the answer, the facts stored for the question and the follow-ups. */
  function ToldAs(full: bool, q: Question, m: Message, facts: seq<Fact>, branched: seq<string>): seq<Event> {
    [Answered(q.key,
              if full then Some(AnswerDetail(Given(m), Filter((f: Fact) => f.questionKey == q.key, facts), branched))
              else None,
              |branched|)]
  }

  /** The answer was settled with `w`. */
  ghost predicate SettledWith(co: Coercions, full: bool, d: Doc, q: Question, m: Message, w: Value, c: Commit)
    requires d.pin.Some?
  {
    && MovedOn(co, d.pin.value, Recorded(co, d, q, m, c.doc.facts, w), c.doc)
    && c.events == ToldAs(full, q, m, c.doc.facts, FollowUps(co, d, q, w))
  }

  /** The facts are those of before with `f` in place of any of its key. */
  ghost predicate Replaces(before: seq<Fact>, after: seq<Fact>, f: Fact) {
    forall g :: g in after <==> g == f || (g in before && g.key != f.key)
  }

  lemma {:induction false} SetFactReplaces(facts: seq<Fact>, f: Fact)
    requires UniqueFacts(facts)
    ensures Replaces(facts, SetFact(facts, f), f)
  {
    if facts != [] {
      var rest := facts[1..];
      assert facts == [facts[0]] + rest;
      SetFactReplaces(rest, f);
      if facts[0].key == f.key {
        forall g | g in rest ensures g.key != f.key {
          var i :| 0 <= i < |rest| && rest[i] == g;
          assert facts[0].key != facts[i + 1].key;
        }
      }
    }
  }

  lemma SettleStepMeans(co: Coercions, full: bool, d: Doc, q: Question, m: Message, facts: seq<Fact>, w: Value)
    requires d.pin.Some?
    ensures var c := SettleStep(co, full, d.pin.value, d, q, m, facts, w);
            c.doc.facts == facts && SettledWith(co, full, d, q, m, w, c)
  {
    BranchMeans(co.norm, q, w, d.queue, d.asked + [q.key]);
    assert Settle(co, d, q, m, facts, w) == Recorded(co, d, q, m, facts, w);
    AdvanceMovesOn(co, d.pin.value, Settle(co, d, q, m, facts, w));
  }

  lemma DirectlyJudged(co: Coercions, d: Doc, m: Message, x: Extraction, q: Question, w: Value)
    requires Answers(d, m, q) && !InWords(q, m) && Says(co, q, Given(m), w)
    ensures Pending(d, m) == Some(q)
    ensures Judge(co, d.pin.value, d, q, m, x)
            == Settled(SetFact(d.facts, Fact(q.factKey, w, FromChoice, q.key, 1.0, false)), w)
  {
    PendingMeans(d, m, q);
    AnswerSays(co, q, Given(m));
  }

  lemma DirectlySettled(co: Coercions, full: bool, d: Doc, m: Message, x: Extraction, q: Question, w: Value)
    requires Answers(d, m, q) && !InWords(q, m) && UniqueFacts(d.facts) && Says(co, q, Given(m), w)
    ensures Answer(co, full, d, m, x).Ok?
    ensures var c := Answer(co, full, d, m, x).value;
            && SettledWith(co, full, d, q, m, w, c)
            && Replaces(d.facts, c.doc.facts, Fact(q.factKey, w, FromChoice, q.key, 1.0, false))
            && FactsOf(c.doc.facts) == FactsOf(d.facts)[q.factKey := w]
  {
    DirectlyJudged(co, d, m, x, q, w);
    var f := Fact(q.factKey, w, FromChoice, q.key, 1.0, false);
    AnswerSettles(co, full, d, m, x, q, SetFact(d.facts, f), w);
    SettleStepMeans(co, full, d, q, m, SetFact(d.facts, f), w);
    SetFactReplaces(d.facts, f);
    SetFactKeepsUnique(d.facts, f);
  }

  /**
   * An answer given as a value is accepted exactly when it says something for a question of its kind, and then what it
   * says is the fact stored; every other fact stays.
   */
  lemma DirectAnswer(co: Coercions, full: bool, d: Doc, m: Message, x: Extraction, q: Question)
    requires Answers(d, m, q) && !InWords(q, m) && UniqueFacts(d.facts)
    ensures !Understood(co, q, Given(m)) ==> Answer(co, full, d, m, x) == Err(Invalid)
    ensures forall w :: Says(co, q, Given(m), w) ==>
              && Answer(co, full, d, m, x).Ok?
              && var c := Answer(co, full, d, m, x).value;
                 && SettledWith(co, full, d, q, m, w, c)
                 && Replaces(d.facts, c.doc.facts, Fact(q.factKey, w, FromChoice, q.key, 1.0, false))
                 && FactsOf(c.doc.facts) == FactsOf(d.facts)[q.factKey := w]
  {
    if Understood(co, q, Given(m)) {
      forall w | Says(co, q, Given(m), w)
        ensures Answer(co, full, d, m, x).Ok?
                && SettledWith(co, full, d, q, m, w, Answer(co, full, d, m, x).value)
                && var facts := Answer(co, full, d, m, x).value.doc.facts;
                   && Replaces(d.facts, facts, Fact(q.factKey, w, FromChoice, q.key, 1.0, false))
                   && FactsOf(facts) == FactsOf(d.facts)[q.factKey := w]
      {
        DirectlySettled(co, full, d, m, x, q, w);
      }
    } else {
      PendingMeans(d, m, q);
      AnswerSays(co, q, Given(m));
    }
  }

  /** Nothing else is an answer. */
  lemma NoAnswer(co: Coercions, full: bool, d: Doc, m: Message, x: Extraction)
    requires forall q :: !Answers(d, m, q)
    ensures Answer(co, full, d, m, x) == Err(Conflict)
  {
    if Pending(d, m).Some? {
      PendingMeans(d, m, Pending(d, m).value);
    }
  }

  // ----- answers in words

  /** Place `i` has what the model extracted for the fact. */
  predicate FirstStated(xs: seq<ExtractedFact>, key: string, i: nat) {
    i < |xs| && xs[i].key == key && forall j :: 0 <= j < i ==> xs[j].key != key
  }

  lemma {:induction false} FoundIsFirst(xs: seq<ExtractedFact>, key: string)
    ensures match FindExtracted(xs, key)
            case None => forall i: nat :: !FirstStated(xs, key, i)
            case Some(x) => exists i: nat :: FirstStated(xs, key, i) && xs[i] == x
  {
    if xs != [] {
      var rest := xs[1..];
      FoundIsFirst(rest, key);
      if xs[0].key == key {
        assert FirstStated(xs, key, 0);
      } else if FindExtracted(rest, key).Some? {
        var i: nat :| FirstStated(rest, key, i) && rest[i] == FindExtracted(rest, key).value;
        assert FirstStated(xs, key, i + 1);
      } else {
        forall i: nat ensures !FirstStated(xs, key, i) {
          assert FirstStated(xs, key, i) ==> i > 0 && FirstStated(rest, key, i - 1);
        }
      }
    }
  }

  lemma FirstStatedIsOne(xs: seq<ExtractedFact>, key: string, i: nat, j: nat)
    requires FirstStated(xs, key, i) && FirstStated(xs, key, j)
    ensures i == j
  {}

  /** The model extracted the fact, with a value that fits the question and a confidence of at least one half. */
  ghost predicate Sure(co: Coercions, q: Question, xs: seq<ExtractedFact>) {
    exists i: nat :: FirstStated(xs, q.factKey, i) && Understood(co, q, xs[i].value) && xs[i].confidence >= 0.5
  }

  /** An extracted side fact that may be recorded: another one than asked for, of the pin, stated with confidence. */
  predicate MayFill(co: Coercions, pin: Pin, q: Question, x: ExtractedFact) {
    && x.key != q.factKey && (exists p :: p in pin.questions && p.factKey == x.key)
    && x.confidence >= 0.7 && !co.placeholder(x.value)
  }

  /** Place `i` fills a gap: nothing was known of its fact, neither before nor from an earlier place. */
  predicate Fills(co: Coercions, pin: Pin, q: Question, facts: seq<Fact>, xs: seq<ExtractedFact>, i: nat) {
    && i < |xs| && MayFill(co, pin, q, xs[i]) && (forall f :: f in facts ==> f.key != xs[i].key)
    && forall j :: 0 <= j < i && MayFill(co, pin, q, xs[j]) ==> xs[j].key != xs[i].key
  }

  /** What is recorded of a side fact. */
  function SideFact(q: Question, x: ExtractedFact): Fact {
    Fact(x.key, x.value, FromAi, q.key, x.confidence, x.confidence < 0.7)
  }

  ghost predicate Filled(co: Coercions, pin: Pin, q: Question, facts: seq<Fact>, xs: seq<ExtractedFact>, g: Fact) {
    exists i: nat :: Fills(co, pin, q, facts, xs, i) && g == SideFact(q, xs[i])
  }

  /** The facts after the gaps are filled: those of before, and one for each place that fills a gap. */
  ghost predicate GapsFilled(co: Coercions, pin: Pin, q: Question, facts: seq<Fact>, xs: seq<ExtractedFact>,
                             after: seq<Fact>)
  {
    forall g :: g in after <==> g in facts || Filled(co, pin, q, facts, xs, g)
  }

  lemma FillsBehind(co: Coercions, pin: Pin, q: Question, facts: seq<Fact>, more: seq<Fact>, xs: seq<ExtractedFact>)
    requires xs != []
    requires MayFill(co, pin, q, xs[0]) && (forall f :: f in facts ==> f.key != xs[0].key)
             ==> Replaces(facts, more, SideFact(q, xs[0]))
    requires !(MayFill(co, pin, q, xs[0]) && forall f :: f in facts ==> f.key != xs[0].key) ==> more == facts
    ensures forall i: nat :: Fills(co, pin, q, more, xs[1..], i) <==> Fills(co, pin, q, facts, xs, i + 1)
  {
    forall i: nat ensures Fills(co, pin, q, more, xs[1..], i) <==> Fills(co, pin, q, facts, xs, i + 1) {
      if i + 1 < |xs| {
        assert xs[1..][i] == xs[i + 1];
        assert forall j :: 0 <= j < i ==> xs[1..][j] == xs[j + 1];
        if Fills(co, pin, q, more, xs[1..], i) {
          forall j | 0 <= j < i + 1 && MayFill(co, pin, q, xs[j]) ensures xs[j].key != xs[i + 1].key {
            assert j > 0 ==> xs[j] == xs[1..][j - 1];
          }
        }
      }
    }
  }

  /** The facts after the first side fact. */
  function Filling(co: Coercions, pin: Pin, q: Question, facts: seq<Fact>, x: ExtractedFact): seq<Fact> {
    if MayFill(co, pin, q, x) && forall f :: f in facts ==> f.key != x.key then SetFact(facts, SideFact(q, x))
      else facts
  }

  lemma FillGapsUnfold(co: Coercions, pin: Pin, q: Question, facts: seq<Fact>, xs: seq<ExtractedFact>)
    requires xs != []
    ensures FillGaps(co, pin, q, facts, xs) == FillGaps(co, pin, q, Filling(co, pin, q, facts, xs[0]), xs[1..])
  {}

  lemma FillingFirst(co: Coercions, pin: Pin, q: Question, facts: seq<Fact>, xs: seq<ExtractedFact>)
    requires xs != [] && UniqueFacts(facts)
    ensures UniqueFacts(Filling(co, pin, q, facts, xs[0]))
    ensures forall g :: g in Filling(co, pin, q, facts, xs[0])
                        <==> g in facts || (Fills(co, pin, q, facts, xs, 0) && g == SideFact(q, xs[0]))
    ensures forall i: nat ::
              Fills(co, pin, q, Filling(co, pin, q, facts, xs[0]), xs[1..], i) <==> Fills(co, pin, q, facts, xs, i + 1)
  {
    var f := SideFact(q, xs[0]);
    if Fills(co, pin, q, facts, xs, 0) {
      SetFactReplaces(facts, f);
      SetFactKeepsUnique(facts, f);
    }
    FillsBehind(co, pin, q, facts, Filling(co, pin, q, facts, xs[0]), xs);
  }

  lemma {:induction false} FillingMeans(co: Coercions, pin: Pin, q: Question, facts: seq<Fact>, xs: seq<ExtractedFact>)
    requires UniqueFacts(facts)
    ensures GapsFilled(co, pin, q, facts, xs, FillGaps(co, pin, q, facts, xs))
    decreases |xs|
  {
    if xs != [] {
      var more := Filling(co, pin, q, facts, xs[0]);
      FillingFirst(co, pin, q, facts, xs);
      FillingMeans(co, pin, q, more, xs[1..]);
      FillGapsUnfold(co, pin, q, facts, xs);
      forall g ensures g in FillGaps(co, pin, q, facts, xs) <==> g in facts || Filled(co, pin, q, facts, xs, g) {
        FilledSplits(co, pin, q, facts, more, xs, g);
      }
    }
  }

  lemma FilledSplits(co: Coercions, pin: Pin, q: Question, facts: seq<Fact>, more: seq<Fact>, xs: seq<ExtractedFact>,
                     g: Fact)
    requires xs != []
    requires forall i: nat :: Fills(co, pin, q, more, xs[1..], i) <==> Fills(co, pin, q, facts, xs, i + 1)
    ensures Filled(co, pin, q, facts, xs, g)
            <==> (Fills(co, pin, q, facts, xs, 0) && g == SideFact(q, xs[0])) || Filled(co, pin, q, more, xs[1..], g)
  {
    if Filled(co, pin, q, facts, xs, g) {
      var i: nat :| Fills(co, pin, q, facts, xs, i) && g == SideFact(q, xs[i]);
      if i > 0 {
        assert Fills(co, pin, q, more, xs[1..], i - 1) && xs[1..][i - 1] == xs[i];
      }
    }
    if Filled(co, pin, q, more, xs[1..], g) {
      var i: nat :| Fills(co, pin, q, more, xs[1..], i) && g == SideFact(q, xs[1..][i]);
      assert Fills(co, pin, q, facts, xs, i + 1) && xs[i + 1] == xs[1..][i];
    }
  }

  /**
   * The value and the confidence stored for an answer in words: what the model extracted, as the question takes it if
   * it does, or the words themselves; and what the model claims, but no more than 0.4 unless it is sure.
   */
  ghost predicate Stored(co: Coercions, q: Question, m: Message, xs: seq<ExtractedFact>, w: Value, confidence: real) {
    && (forall i: nat :: FirstStated(xs, q.factKey, i) ==>
          && (Understood(co, q, xs[i].value) ==> Says(co, q, xs[i].value, w))
          && (!Understood(co, q, xs[i].value) ==> w == xs[i].value)
          && confidence == if Sure(co, q, xs) || xs[i].confidence < 0.4 then xs[i].confidence else 0.4)
    && ((forall i: nat :: !FirstStated(xs, q.factKey, i)) ==> w == Str(co.show(Given(m))) && confidence == 0.3)
  }

  lemma SureMeans(co: Coercions, q: Question, x: Extraction)
    ensures IsSure(co, q, x) <==> Sure(co, q, x.facts)
  {
    FoundIsFirst(x.facts, q.factKey);
    var found := FindExtracted(x.facts, q.factKey);
    if found.Some? {
      AnswerSays(co, q, found.value.value);
      var i: nat :| FirstStated(x.facts, q.factKey, i) && x.facts[i] == found.value;
      forall j: nat | FirstStated(x.facts, q.factKey, j) ensures j == i {
        FirstStatedIsOne(x.facts, q.factKey, i, j);
      }
    }
  }

  lemma StoredMeans(co: Coercions, q: Question, m: Message, x: Extraction)
    ensures var f := ExtractedAnswer(co, q, m, x);
            && f == Fact(q.factKey, f.value, FromAi, q.key, f.confidence, f.confidence < 0.7)
            && Stored(co, q, m, x.facts, f.value, f.confidence)
  {
    SureMeans(co, q, x);
    FoundIsFirst(x.facts, q.factKey);
    var found := FindExtracted(x.facts, q.factKey);
    if found.Some? {
      AnswerSays(co, q, found.value.value);
      var i: nat :| FirstStated(x.facts, q.factKey, i) && x.facts[i] == found.value;
      forall j: nat | FirstStated(x.facts, q.factKey, j) ensures j == i {
        FirstStatedIsOne(x.facts, q.factKey, i, j);
      }
    }
  }

  /**
   * The answer is unclear for the first time: its side facts are recorded, and the question stays with one
   * clarification.
   */
  ghost predicate Clarified(co: Coercions, full: bool, d: Doc, q: Question, m: Message, x: Extraction, c: Commit)
    requires d.pin.Some?
  {
    && c.doc == d.(answers := d.answers + [AnswerRecord(q.key, Given(m))], facts := c.doc.facts,
                   clarification := Some(match x.clarification
                                         case Some(ask) => ask
                                         case None => "Could you clarify: " + q.text))
    && GapsFilled(co, d.pin.value, q, d.facts, x.facts, c.doc.facts)
    && c.events == ToldAs(full, q, m, c.doc.facts, [])
  }

  predicate ClarificationIsDue(d: Doc) {
    d.clarification.None? || d.clarification.value == ""
  }

  lemma UnclearWords(co: Coercions, full: bool, d: Doc, m: Message, x: Extraction, q: Question)
    requires Answers(d, m, q) && InWords(q, m) && UniqueFacts(d.facts)
    requires !Sure(co, q, x.facts) && ClarificationIsDue(d)
    ensures Answer(co, full, d, m, x).Ok? && Clarified(co, full, d, q, m, x, Answer(co, full, d, m, x).value)
  {
    PendingMeans(d, m, q);
    SureMeans(co, q, x);
    FillingMeans(co, d.pin.value, q, d.facts, x.facts);
    assert Judge(co, d.pin.value, d, q, m, x) == Unclear(FillGaps(co, d.pin.value, q, d.facts, x.facts));
  }

  /** Settled in words: the value stored for the answer beside the side facts that fill gaps. */
  ghost predicate SettledInWords(co: Coercions, full: bool, d: Doc, q: Question, m: Message, x: Extraction, c: Commit)
    requires d.pin.Some?
  {
    exists w, confidence, filled: seq<Fact> ::
      && Stored(co, q, m, x.facts, w, confidence) && SettledWith(co, full, d, q, m, w, c)
      && GapsFilled(co, d.pin.value, q, d.facts, x.facts, filled)
      && Replaces(filled, c.doc.facts, Fact(q.factKey, w, FromAi, q.key, confidence, confidence < 0.7))
      && q.factKey in FactsOf(c.doc.facts) && FactsOf(c.doc.facts)[q.factKey] == w
  }

  lemma AnswerSettles(co: Coercions, full: bool, d: Doc, m: Message, x: Extraction, q: Question, facts: seq<Fact>,
                      w: Value)
    requires d.pin.Some? && Pending(d, m) == Some(q) && Judge(co, d.pin.value, d, q, m, x) == Settled(facts, w)
    ensures Answer(co, full, d, m, x) == Ok(SettleStep(co, full, d.pin.value, d, q, m, facts, w))
  {}

  lemma WordsJudged(co: Coercions, d: Doc, m: Message, x: Extraction, q: Question)
    requires Answers(d, m, q) && InWords(q, m) && (Sure(co, q, x.facts) || !ClarificationIsDue(d))
    ensures Pending(d, m) == Some(q)
    ensures var f := ExtractedAnswer(co, q, m, x);
            Judge(co, d.pin.value, d, q, m, x)
            == Settled(SetFact(FillGaps(co, d.pin.value, q, d.facts, x.facts), f), f.value)
  {
    PendingMeans(d, m, q);
    SureMeans(co, q, x);
  }

  /** What is stored when such an answer is settled. */
  lemma WordsSettled(co: Coercions, full: bool, d: Doc, m: Message, x: Extraction, q: Question)
    requires d.pin.Some? && UniqueFacts(d.facts)
    ensures var f := ExtractedAnswer(co, q, m, x);
            var facts := SetFact(FillGaps(co, d.pin.value, q, d.facts, x.facts), f);
            SettledInWords(co, full, d, q, m, x, SettleStep(co, full, d.pin.value, d, q, m, facts, f.value))
  {
    StoredMeans(co, q, m, x);
    var filled := FillGaps(co, d.pin.value, q, d.facts, x.facts);
    FillingMeans(co, d.pin.value, q, d.facts, x.facts);
    FillGapsKeepsUnique(co, d.pin.value, q, d.facts, x.facts);
    var f := ExtractedAnswer(co, q, m, x);
    SetFactReplaces(filled, f);
    SetFactKeepsUnique(filled, f);
    SettleStepMeans(co, full, d, q, m, SetFact(filled, f), f.value);
  }

  lemma ClearWords(co: Coercions, full: bool, d: Doc, m: Message, x: Extraction, q: Question)
    requires Answers(d, m, q) && InWords(q, m) && UniqueFacts(d.facts)
    requires Sure(co, q, x.facts) || !ClarificationIsDue(d)
    ensures Answer(co, full, d, m, x).Ok? && SettledInWords(co, full, d, q, m, x, Answer(co, full, d, m, x).value)
  {
    WordsJudged(co, d, m, x, q);
    var f := ExtractedAnswer(co, q, m, x);
    AnswerSettles(co, full, d, m, x, q, SetFact(FillGaps(co, d.pin.value, q, d.facts, x.facts), f), f.value);
    WordsSettled(co, full, d, m, x, q);
  }

  /**
   * An answer in words is always accepted. Unless the model is sure or a clarification was asked already it is unclear;
   * otherwise it is settled with the value stored for it, beside the side facts that fill gaps.
   */
  lemma AnswerInWords(co: Coercions, full: bool, d: Doc, m: Message, x: Extraction, q: Question)
    requires Answers(d, m, q) && InWords(q, m) && UniqueFacts(d.facts)
    ensures Answer(co, full, d, m, x).Ok?
    ensures var c := Answer(co, full, d, m, x).value;
            if !Sure(co, q, x.facts) && ClarificationIsDue(d) then Clarified(co, full, d, q, m, x, c)
            else SettledInWords(co, full, d, q, m, x, c)
  {
    if !Sure(co, q, x.facts) && ClarificationIsDue(d) {
      UnclearWords(co, full, d, m, x, q);
    } else {
      ClearWords(co, full, d, m, x, q);
    }
  }

  /** What is left of an accepted answer, given as a value or in words. */
  ghost predicate Taken(co: Coercions, full: bool, d: Doc, m: Message, x: Extraction, c: Commit) {
    exists q :: Answers(d, m, q) && if InWords(q, m) then TakenInWords(co, full, d, m, x, q, c)
                                    else TakenDirectly(co, full, d, m, q, c)
  }

  ghost predicate TakenInWords(co: Coercions, full: bool, d: Doc, m: Message, x: Extraction, q: Question, c: Commit)
    requires d.pin.Some?
  {
    if !Sure(co, q, x.facts) && ClarificationIsDue(d) then Clarified(co, full, d, q, m, x, c)
    else SettledInWords(co, full, d, q, m, x, c)
  }

  ghost predicate TakenDirectly(co: Coercions, full: bool, d: Doc, m: Message, q: Question, c: Commit)
    requires d.pin.Some?
  {
    exists w ::
      && Says(co, q, Given(m), w) && SettledWith(co, full, d, q, m, w, c)
      && Replaces(d.facts, c.doc.facts, Fact(q.factKey, w, FromChoice, q.key, 1.0, false))
      && FactsOf(c.doc.facts) == FactsOf(d.facts)[q.factKey := w]
  }

  /**
   * An answer is taken so, or refused: because no question asked it, or because it says nothing to the one that did.
   */
  lemma AnswerMeans(co: Coercions, full: bool, d: Doc, m: Message, x: Extraction)
    requires UniqueFacts(d.facts)
    ensures match Answer(co, full, d, m, x)
            case Ok(c) => Taken(co, full, d, m, x, c)
            case Err(e) =>
              || (e == Conflict && forall q :: !Answers(d, m, q))
              || (e == Invalid && exists q :: Answers(d, m, q) && !InWords(q, m) && !Understood(co, q, Given(m)))
  {
    if q :| Answers(d, m, q) {
      if InWords(q, m) {
        AnswerInWords(co, full, d, m, x, q);
      } else {
        DirectAnswer(co, full, d, m, x, q);
        if Understood(co, q, Given(m)) {
          var w :| Says(co, q, Given(m), w);
          assert TakenDirectly(co, full, d, m, q, Answer(co, full, d, m, x).value);
        }
      }
    } else {
      NoAnswer(co, full, d, m, x);
    }
  }
}
