/** The deterministic conversation flow of src/modules/assessments/branching.ts. */
module Branching {
  import opened Prelude
  import opened Conditions

  datatype Gate = Gate(factKey: string, equals: Value)

  datatype FlowNode = FlowNode(questionKey: string, showIf: Option<Gate>)

  datatype QuestionKind = Mcq | YesNo | FreeText | Number

  datatype Choice = Choice(id: string, caption: string, factValue: Value)

  datatype Branch = Branch(onValue: Value, questionKeys: seq<string>)

  datatype Question = Question(
    key: string, text: string, kind: QuestionKind, factKey: string, required: bool,
    options: seq<Choice>, branch: Option<Branch>)

  /**
   * The JavaScript coercions the intake relies on: reading a word (`normalizeValue`), reading a number,
   * showing a value as text, recognising a placeholder answer, and trimming a text.
   */
  datatype Coercions = Coercions(
    norm: Reading, number: Value -> Option<real>, show: Value -> string, placeholder: Value -> bool,
    trim: string -> string)

  // ----- looking questions up

  function FindQuestion(questions: seq<Question>, key: string): (q: Option<Question>)
    ensures q.Some? ==> q.value in questions && q.value.key == key
  {
    if questions == [] then None
    else if questions[0].key == key then Some(questions[0])
    else FindQuestion(questions[1..], key)
  }

  lemma {:induction false} FindQuestionFails(questions: seq<Question>, key: string)
    ensures FindQuestion(questions, key).None? <==> forall q :: q in questions ==> q.key != key
  {
    if questions != [] {
      FindQuestionFails(questions[1..], key);
      assert questions == [questions[0]] + questions[1..];
    }
  }

  function KeysOf(questions: seq<Question>): set<string> {
    set q | q in questions :: q.key
  }

  lemma KeysAreFound(questions: seq<Question>, key: string)
    ensures key in KeysOf(questions) <==> FindQuestion(questions, key).Some?
  {
    FindQuestionFails(questions, key);
  }

  /** The first question, in list order, that produces a fact. */
  function Producer(questions: seq<Question>, factKey: string): (q: Option<Question>)
    ensures q.Some? ==> q.value in questions && q.value.factKey == factKey
  {
    if questions == [] then None
    else if questions[0].factKey == factKey then Some(questions[0])
    else Producer(questions[1..], factKey)
  }

  /** No question of the list is about the fact. */
  ghost predicate Unproducible(questions: seq<Question>, factKey: string) {
    forall q :: q in questions ==> q.factKey != factKey
  }

  lemma {:induction false} ProducerFails(questions: seq<Question>, factKey: string)
    ensures Producer(questions, factKey).None? <==> Unproducible(questions, factKey)
  {
    if questions != [] {
      ProducerFails(questions[1..], factKey);
      assert questions == [questions[0]] + questions[1..];
    }
  }

  // ----- gates

  /** The last gated node of a key decides, even for another node of the same key that has no gate. */
  function GateOf(flow: seq<FlowNode>, key: string): Option<Gate> {
    if flow == [] then None
    else
      var last := flow[|flow| - 1];
      if last.questionKey == key && last.showIf.Some? then last.showIf
      else GateOf(flow[..|flow| - 1], key)
  }

  /** A key is ungated when none of its nodes has a gate. */
  lemma {:induction false} GateOfNone(flow: seq<FlowNode>, key: string)
    ensures GateOf(flow, key).None? <==> forall n :: n in flow && n.questionKey == key ==> n.showIf.None?
  {
    if flow != [] {
      var rest := flow[..|flow| - 1];
      GateOfNone(rest, key);
      assert flow == rest + [flow[|flow| - 1]];
    }
  }

  /** The gate of a key is that of its last gated node. */
  lemma {:induction false} GateOfIsLast(flow: seq<FlowNode>, key: string) returns (i: nat)
    requires GateOf(flow, key).Some?
    ensures i < |flow| && flow[i].questionKey == key && flow[i].showIf == GateOf(flow, key)
    ensures forall j :: i < j < |flow| && flow[j].questionKey == key ==> flow[j].showIf.None?
  {
    var last := |flow| - 1;
    if flow[last].questionKey == key && flow[last].showIf.Some? {
      i := last;
    } else {
      i := GateOfIsLast(flow[..last], key);
      forall j | i < j < |flow| && flow[j].questionKey == key ensures flow[j].showIf.None? {
        assert j == last || flow[..last][j] == flow[j];
      }
    }
  }

  predicate GateOpen(norm: Reading, flow: seq<FlowNode>, key: string, facts: Facts) {
    var g := GateOf(flow, key);
    g.None? || Matches(norm, Leaf(g.value.factKey, Eq, One(g.value.equals)), facts)
  }

  /** A gate is open when its fact reads as what the gate asks for. */
  lemma GateMeans(norm: Reading, flow: seq<FlowNode>, key: string, facts: Facts)
    ensures GateOpen(norm, flow, key, facts)
            <==> match GateOf(flow, key)
                 case None => true
                 case Some(g) =>
                   && g.factKey in facts && Normalize(norm, facts[g.factKey]) != Null
                   && Normalize(norm, facts[g.factKey]) == Normalize(norm, g.equals)
  {
    if GateOf(flow, key).Some? {
      OperatorsMean(norm, facts, GateOf(flow, key).value.factKey, GateOf(flow, key).value.equals);
    }
  }

  predicate Askable(norm: Reading, flow: seq<FlowNode>, questions: seq<Question>, asked: seq<string>, facts: Facts,
                    key: string)
  {
    key !in asked && FindQuestion(questions, key).Some? && GateOpen(norm, flow, key, facts)
  }

  // ----- the queue

  function InitialQueue(flow: seq<FlowNode>): (queue: seq<string>) {
    seq(|flow|, i requires 0 <= i < |flow| => flow[i].questionKey)
  }

  /** The first askable key of the queue and what stays queued behind it. */
  function NextQuestion(norm: Reading, flow: seq<FlowNode>, questions: seq<Question>, asked: seq<string>, facts: Facts,
                        queue: seq<string>): (Option<Question>, seq<string>)
  {
    if queue == [] then (None, [])
    else if Askable(norm, flow, questions, asked, facts, queue[0]) then (FindQuestion(questions, queue[0]), queue[1..])
    else NextQuestion(norm, flow, questions, asked, facts, queue[1..])
  }

  /** The question popped is the first askable one, and the rest of the queue stays as it was. */
  lemma {:induction false} NextIsFirstAskable(norm: Reading, flow: seq<FlowNode>, questions: seq<Question>,
                                              asked: seq<string>, facts: Facts, queue: seq<string>)
    ensures var r := NextQuestion(norm, flow, questions, asked, facts, queue);
            match r.0
            case None => r.1 == [] && forall k | k in queue :: !Askable(norm, flow, questions, asked, facts, k)
            case Some(q) =>
              && |r.1| < |queue| && r.1 == queue[|queue| - |r.1|..]
              && Some(q) == FindQuestion(questions, queue[|queue| - |r.1| - 1])
              && Askable(norm, flow, questions, asked, facts, q.key)
              && forall i | 0 <= i < |queue| - |r.1| - 1 :: !Askable(norm, flow, questions, asked, facts, queue[i])
  {
    if queue != [] && !Askable(norm, flow, questions, asked, facts, queue[0]) {
      NextIsFirstAskable(norm, flow, questions, asked, facts, queue[1..]);
      assert queue == [queue[0]] + queue[1..];
    }
  }

  method PopNext(norm: Reading, flow: seq<FlowNode>, questions: seq<Question>, asked: seq<string>, facts: Facts,
                 queued: seq<string>)
    returns (question: Option<Question>, queue: seq<string>)
    ensures (question, queue) == NextQuestion(norm, flow, questions, asked, facts, queued)
  {
    queue := queued;
    while queue != []
      invariant NextQuestion(norm, flow, questions, asked, facts, queue)
             == NextQuestion(norm, flow, questions, asked, facts, queued)
      decreases |queue|
    {
      var key := queue[0];
      queue := queue[1..];
      if key in asked { continue; }
      var q := FindQuestion(questions, key);
      if q.None? { continue; }
      var g := GateOf(flow, key);
      if g.Some? && !Matches(norm, Leaf(g.value.factKey, Eq, One(g.value.equals)), facts) { continue; }
      return q, queue;
    }
    return None, [];
  }

  /** Does this answer fire the question's branch? */
  predicate Triggers(norm: Reading, q: Question, value: Value) {
    && q.branch.Some? && q.branch.value.questionKeys != []
    && Normalize(norm, value) == Normalize(norm, q.branch.value.onValue)
  }

  /** The new queue and the follow-ups that were put at its front. */
  function ApplyBranch(norm: Reading, q: Question, value: Value, queue: seq<string>, asked: seq<string>)
    : (seq<string>, seq<string>)
  {
    if !Triggers(norm, q, value) then (queue, [])
    else
      var branched := Filter((k: string) => k !in asked && k !in queue, q.branch.value.questionKeys);
      (branched + queue, branched)
  }

  /**
   * An answer fires the branch when it reads as the branch's value; then every follow-up that is new is put in, in
   * order.
   */
  lemma BranchMeans(norm: Reading, q: Question, value: Value, queue: seq<string>, asked: seq<string>)
    ensures var r := ApplyBranch(norm, q, value, queue, asked);
            && r.0 == r.1 + queue
            && r.1 == if q.branch.Some? && Normalize(norm, value) == Normalize(norm, q.branch.value.onValue)
                      then Filter((k: string) => k !in asked && k !in queue, q.branch.value.questionKeys)
                      else []
  {
    assert [] + queue == queue;
  }

  /** Follow-ups go ahead of everything queued, once each, and a matching trigger leaves none of them out. */
  lemma BranchComesFirst(norm: Reading, q: Question, value: Value, queue: seq<string>, asked: seq<string>)
    ensures var (queue', branched) := ApplyBranch(norm, q, value, queue, asked);
            && queue' == branched + queue
            && (forall k :: k in branched ==> k !in asked && k !in queue)
            && (Triggers(norm, q, value) ==> forall k | k in q.branch.value.questionKeys :: k in asked || k in queue')
            && (!Triggers(norm, q, value) ==> branched == [])
  {
    if Triggers(norm, q, value) {
      FilterMembers((k: string) => k !in asked && k !in queue, q.branch.value.questionKeys);
    }
  }

  function MissingRequired(required: seq<string>, facts: Facts): seq<string> {
    Filter((k: string) => !Captured(facts, k), required)
  }

  lemma MissingMembers(required: seq<string>, facts: Facts)
    ensures forall k :: k in MissingRequired(required, facts) <==> k in required && !Captured(facts, k)
  {
    FilterMembers((k: string) => !Captured(facts, k), required);
  }

  // ----- structured answers

  function PickChoice(options: seq<Choice>, v: Value): (c: Option<Choice>)
    ensures c.Some? ==> c.value in options
  {
    if options == [] then None
    else
      var o := options[0];
      if Str(o.id) == v || o.factValue == v || Str(o.caption) == v then Some(o) else PickChoice(options[1..], v)
  }

  /** The fact value of an answer, or None when the answer does not fit the question. */
  function StructuredValue(co: Coercions, q: Question, v: Value): (r: Option<Value>)
    ensures q.kind.YesNo? && r.Some? ==> r.value.Bool? && r.value == if v.Str? then co.norm(v.text) else v
    ensures q.kind.Number? && r.Some? ==> r.value.Num? && (v.Num? ==> r.value == v)
    ensures q.kind.FreeText? ==> r == Some(v)
  {
    match q.kind
    case Mcq =>
      var o := PickChoice(q.options, v);
      if o.Some? then Some(o.value.factValue) else None
    case YesNo =>
      var n := Normalize(co.norm, v);
      if n.Bool? then Some(n) else None
    case Number =>
      if v.Num? then Some(v)
      else
        var n := co.number(v);
        if n.Some? then Some(Num(n.value)) else None
    case FreeText => Some(v)
  }

  // ----- which value belongs to an answer

  /** An answer names an option by its id, its fact value or its caption. */
  predicate Names(v: Value, o: Choice) {
    v == Str(o.id) || v == o.factValue || v == Str(o.caption)
  }

  /** Option `i` is the first that the answer names. */
  predicate FirstNamed(options: seq<Choice>, v: Value, i: nat) {
    i < |options| && Names(v, options[i]) && forall j :: 0 <= j < i ==> !Names(v, options[j])
  }

  /** Answer `v` to question `q` says `w`: the only meaning an answer can have for a question of its kind. */
  ghost predicate Says(co: Coercions, q: Question, v: Value, w: Value) {
    match q.kind
    case Mcq => exists i: nat :: FirstNamed(q.options, v, i) && w == q.options[i].factValue
    case YesNo => w.Bool? && w == if v.Str? then co.norm(v.text) else v
    case Number => if v.Num? then w == v else co.number(v).Some? && w == Num(co.number(v).value)
    case FreeText => w == v
  }

  ghost predicate Understood(co: Coercions, q: Question, v: Value) {
    exists w :: Says(co, q, v, w)
  }

  lemma {:induction false} PickedIsFirst(options: seq<Choice>, v: Value)
    ensures match PickChoice(options, v)
            case None => forall o :: o in options ==> !Names(v, o)
            case Some(c) => exists i: nat :: FirstNamed(options, v, i) && c == options[i]
  {
    if options != [] {
      var rest := options[1..];
      assert options == [options[0]] + rest;
      PickedIsFirst(rest, v);
      if Names(v, options[0]) {
        assert FirstNamed(options, v, 0);
      } else if PickChoice(rest, v).Some? {
        var i: nat :| FirstNamed(rest, v, i) && PickChoice(rest, v).value == rest[i];
        assert FirstNamed(options, v, i + 1);
      }
    }
  }

  lemma FirstNamedIsOne(options: seq<Choice>, v: Value, i: nat, j: nat)
    requires FirstNamed(options, v, i) && FirstNamed(options, v, j)
    ensures i == j
  {}

  /** An answer is taken exactly when it says something, and for what it says. */
  lemma AnswerSays(co: Coercions, q: Question, v: Value)
    ensures StructuredValue(co, q, v).Some? <==> Understood(co, q, v)
    ensures forall w :: Says(co, q, v, w) <==> StructuredValue(co, q, v) == Some(w)
  {
    if q.kind.Mcq? {
      PickedIsFirst(q.options, v);
      forall w ensures Says(co, q, v, w) <==> StructuredValue(co, q, v) == Some(w) {
        if Says(co, q, v, w) {
          var i: nat :| FirstNamed(q.options, v, i) && w == q.options[i].factValue;
          assert q.options[i] in q.options;
          var j: nat :| FirstNamed(q.options, v, j) && PickChoice(q.options, v).value == q.options[j];
          FirstNamedIsOne(q.options, v, i, j);
        }
      }
    }
    var r := StructuredValue(co, q, v);
    assert r.Some? ==> Says(co, q, v, r.value);
  }
}
