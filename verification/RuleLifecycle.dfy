/**
 * The lifecycle of hard rules (src/modules/rules/service.ts): draft, approved, active, retired. A rule book refines the
 * copy-on-write store of Versions step by step, an open rule (draft or approved) being a draft there, and so inherits
 * its invariants; beyond them a key has one group, and every active rule was approved by another than its last editor.
 */
module RuleLifecycle {
  import opened Prelude
  import opened Approval
  import V = Versions

  datatype RuleStatus = Draft | Approved | Active | Retired

  datatype RuleDoc<+C> = RuleDoc(
    group: nat,
    key: string,
    number: nat,
    isCurrent: bool,
    status: RuleStatus,
    body: C,
    createdBy: string,
    approval: Option<Approval>)

  type Book<+C> = seq<RuleDoc<C>>

  datatype Why = NotFound | KeyTaken | IsRetired | ReplacementIsOpen | NotADraft | SelfApproved | NotApproved

  type Turn<+C> = Result<Book<C>, Why>

  predicate IsOpen<C>(r: RuleDoc<C>) {
    r.status == Draft || r.status == Approved
  }

  // ----- lookups

  predicate HasKey<C>(s: Book<C>, key: string) {
    exists i :: 0 <= i < |s| && s[i].key == key
  }

  predicate HasOpen<C>(s: Book<C>, group: nat) {
    exists i :: 0 <= i < |s| && s[i].group == group && IsOpen(s[i])
  }

  function Latest<C>(s: Book<C>, group: nat): nat {
    if s == [] then 0
    else
      var before := Latest(s[..|s| - 1], group);
      var r := s[|s| - 1];
      if r.group == group && r.number > before then r.number else before
  }

  /** The first active current rule of a group other than `id`. */
  function Previous<C>(s: Book<C>, group: nat, id: nat): (p: Option<nat>)
    ensures p.Some? ==> p.value < |s| && s[p.value].group == group && s[p.value].isCurrent && p.value != id
  {
    if s == [] then None
    else
      var last := |s| - 1;
      var before := Previous(s[..last], group, id);
      if before.Some? then before
      else if s[last].group == group && s[last].isCurrent && s[last].status == Active && last != id then Some(last)
      else None
  }

  /** The open rule with this key that has the highest number. */
  function NewestOpen<C>(s: Book<C>, key: string): (p: Option<nat>)
    ensures p.Some? ==> p.value < |s| && s[p.value].key == key && IsOpen(s[p.value])
  {
    if s == [] then None
    else
      var last := |s| - 1;
      var before := NewestOpen(s[..last], key);
      if s[last].key == key && IsOpen(s[last])
         && (before.None? || s[last].number > s[before.value].number) then Some(last)
      else before
  }

  /** The first active current rule with this key. */
  function ActiveWithKey<C>(s: Book<C>, key: string): (p: Option<nat>)
    ensures p.Some? ==> p.value < |s| && s[p.value].key == key && s[p.value].isCurrent && s[p.value].status == Active
  {
    if s == [] then None
    else
      var last := |s| - 1;
      var before := ActiveWithKey(s[..last], key);
      if before.Some? then before
      else if s[last].key == key && s[last].isCurrent && s[last].status == Active then Some(last)
      else None
  }

  // ----- operations

  function Create<C>(s: Book<C>, key: string, body: C, actor: string): Turn<C> {
    if HasKey(s, key) then Err(KeyTaken)
    else Ok(s + [RuleDoc(|s|, key, 1, false, Draft, body, actor, None)])
  }

  /** An open rule is edited in place and loses its approval; an active one is copied into a new draft. */
  function Update<C>(s: Book<C>, id: nat, body: C, actor: string): Turn<C> {
    if id >= |s| then Err(NotFound)
    else
      var r := s[id];
      if r.status == Retired then Err(IsRetired)
      else if r.status == Active then
        if HasOpen(s, r.group) then Err(ReplacementIsOpen)
        else Ok(s + [RuleDoc(r.group, r.key, Latest(s, r.group) + 1, false, Draft, body, actor, None)])
      else Ok(s[id := r.(status := Draft, isCurrent := false, body := body, createdBy := actor, approval := None)])
  }

  function Approve<C>(s: Book<C>, id: nat, approver: string, ref: string): Turn<C> {
    if id >= |s| then Err(NotFound)
    else if s[id].status != Draft then Err(NotADraft)
    else if s[id].createdBy == approver then Err(SelfApproved)
    else Ok(s[id := s[id].(status := Approved, approval := Some(Approval(approver, ref)))])
  }

  function RetiredAt<C>(s: Book<C>, id: nat): Book<C>
    requires id < |s|
  {
    s[id := s[id].(status := Retired, isCurrent := false)]
  }

  /** An active rule that is not current is repaired: made current without a new approval. */
  function Activate<C>(s: Book<C>, id: nat): Turn<C> {
    if id >= |s| then Err(NotFound)
    else if s[id].status == Active && s[id].isCurrent then Ok(s)
    else
      var repairing := s[id].status == Active;
      if (!repairing && s[id].status != Approved) || !Complete(s[id].approval) then Err(NotApproved)
      else
        var previous := Previous(s, s[id].group, id);
        var cleared := if previous.Some? then RetiredAt(s, previous.value) else s;
        Ok(cleared[id := s[id].(status := Active, isCurrent := true)])
  }

  function Retire<C>(s: Book<C>, id: nat): Turn<C> {
    if id >= |s| then Err(NotFound)
    else if s[id].status == Retired then Ok(s)
    else Ok(RetiredAt(s, id))
  }

  /** Applying one rule of a dataset's scoring sheet; any refusal aborts the whole transaction. */
  function ApplyRow<C>(s: Book<C>, key: string, body: C, actor: string, author: string, reviewer: string,
                       ref: string): Turn<C>
  {
    var open := NewestOpen(s, key);
    var current := if open.Some? then open else ActiveWithKey(s, key);
    match (if current.Some? then Update(s, current.value, body, actor) else Create(s, key, body, actor))
    case Err(why) => Err(why)
    case Ok(edited) =>
      var target := if open.Some? then open.value else |s|;
      if target >= |edited| then Err(NotFound)
      else
        match Approve(edited[target := edited[target].(createdBy := author)], target, reviewer, ref)
        case Err(why) => Err(why)
        case Ok(approved) => Activate(approved, target)
  }

  datatype RuleEdit<+C> =
    | RCreate(key: string, body: C, actor: string)
    | RUpdate(id: nat, body: C, actor: string)
    | RApprove(id: nat, approver: string, ref: string)
    | RActivate(id: nat)
    | RRetire(id: nat)
    | RRow(key: string, body: C, actor: string, author: string, reviewer: string, ref: string)

  function ApplyEdit<C>(s: Book<C>, e: RuleEdit<C>): Turn<C> {
    match e
    case RCreate(key, body, actor) => Create(s, key, body, actor)
    case RUpdate(id, body, actor) => Update(s, id, body, actor)
    case RApprove(id, approver, ref) => Approve(s, id, approver, ref)
    case RActivate(id) => Activate(s, id)
    case RRetire(id) => Retire(s, id)
    case RRow(key, body, actor, author, reviewer, ref) => ApplyRow(s, key, body, actor, author, reviewer, ref)
  }

  function After<C>(s: Book<C>, e: RuleEdit<C>): Book<C> {
    var r := ApplyEdit(s, e);
    if r.Ok? then r.value else s
  }

  function Run<C>(s: Book<C>, edits: seq<RuleEdit<C>>): Book<C> {
    if edits == [] then s else After(Run(s, edits[..|edits| - 1]), edits[|edits| - 1])
  }

  /** The text that an edit brings in, if it brings in any. */
  function Brings<C>(e: RuleEdit<C>): Option<C> {
    match e
    case RCreate(_, body, _) => Some(body)
    case RUpdate(_, body, _) => Some(body)
    case RRow(_, body, _, _, _, _) => Some(body)
    case _ => None
  }

  /** No rule has a text that was neither there nor brought in. */
  lemma EditBrings<C>(s: Book<C>, e: RuleEdit<C>, i: nat)
    requires i < |After(s, e)|
    ensures (i < |s| && After(s, e)[i].body == s[i].body) || Brings(e) == Some(After(s, e)[i].body)
  {
    if ApplyEdit(s, e).Ok? {
      match e
      case RRow(key, body, actor, author, reviewer, ref) => RowBrings(s, key, body, actor, author, reviewer, ref, i);
      case _ =>
    }
  }

  lemma RowBrings<C>(s: Book<C>, key: string, body: C, actor: string, author: string, reviewer: string, ref: string,
                     i: nat)
    requires ApplyRow(s, key, body, actor, author, reviewer, ref).Ok?
    requires i < |ApplyRow(s, key, body, actor, author, reviewer, ref).value|
    ensures var t := ApplyRow(s, key, body, actor, author, reviewer, ref).value;
            (i < |s| && t[i].body == s[i].body) || t[i].body == body
  {
    var open := NewestOpen(s, key);
    var current := if open.Some? then open else ActiveWithKey(s, key);
    var edited := (if current.Some? then Update(s, current.value, body, actor) else Create(s, key, body, actor)).value;
    var target := if open.Some? then open.value else |s|;
    var approved := Approve(edited[target := edited[target].(createdBy := author)], target, reviewer, ref).value;
    ActivateKeepsText(approved, target, i);
  }

  lemma ActivateKeepsText<C>(s: Book<C>, id: nat, i: nat)
    requires Activate(s, id).Ok? && i < |Activate(s, id).value|
    ensures i < |s| && Activate(s, id).value[i].body == s[i].body
  {}

  // ----- the book as a versioned store

  function AbsStatus(status: RuleStatus): V.VersionStatus {
    match status
    case Active => V.Active
    case Retired => V.Deactivated
    case _ => V.Draft
  }

  function Abs<C>(r: RuleDoc<C>): V.Version<Authored<C>> {
    V.Version(r.group, r.key, r.number, r.isCurrent, AbsStatus(r.status), Authored(r.body, r.createdBy, r.approval))
  }

  function AbsBook<C>(s: Book<C>): (t: V.Store<Authored<C>>)
    ensures |t| == |s|
  {
    seq(|s|, i requires 0 <= i < |s| => Abs(s[i]))
  }

  lemma AbsPrefix<C>(s: Book<C>, n: nat)
    requires n <= |s|
    ensures AbsBook(s[..n]) == AbsBook(s)[..n]
  {}

  lemma AbsAppend<C>(s: Book<C>, r: RuleDoc<C>)
    ensures AbsBook(s + [r]) == AbsBook(s) + [Abs(r)]
  {}

  lemma AbsReplace<C>(s: Book<C>, id: nat, r: RuleDoc<C>)
    requires id < |s|
    ensures AbsBook(s[id := r]) == AbsBook(s)[id := Abs(r)]
  {}

  lemma {:induction false} AbsLatest<C>(s: Book<C>, group: nat)
    ensures V.Latest(AbsBook(s), group) == Latest(s, group)
  {
    if s != [] {
      AbsLatest(s[..|s| - 1], group);
      AbsPrefix(s, |s| - 1);
    }
  }

  lemma AbsOpen<C>(s: Book<C>, group: nat)
    ensures V.HasDraft(AbsBook(s), group) <==> HasOpen(s, group)
  {
    if HasOpen(s, group) {
      var i :| 0 <= i < |s| && s[i].group == group && IsOpen(s[i]);
      assert AbsBook(s)[i].status == V.Draft;
    }
  }

  /** Every current rule is active. */
  ghost predicate CurrentAreActive<C>(s: Book<C>) {
    forall i :: 0 <= i < |s| ==> (s[i].isCurrent ==> s[i].status == Active)
  }

  lemma {:induction false} AbsPrevious<C>(s: Book<C>, group: nat, id: nat)
    requires CurrentAreActive(s) && (id < |s| ==> !s[id].isCurrent)
    ensures V.CurrentOf(AbsBook(s), group) == Previous(s, group, id)
  {
    if s != [] {
      var before := s[..|s| - 1];
      AbsPrevious(before, group, id);
      AbsPrefix(s, |s| - 1);
      assert AbsBook(s)[|s| - 1] == Abs(s[|s| - 1]);
    }
  }

  // ----- the invariant

  /** Approval fits status, and nobody approved what they made. */
  predicate RuleOk<C>(r: RuleDoc<C>) {
    && FourEyes(r.createdBy, r.approval)
    && (r.status == Draft ==> r.approval.None?)
    && (r.status == Approved ==> r.approval.Some?)
    && (r.status == Active ==> Complete(r.approval))
  }

  ghost predicate OneGroupPerKey<C>(s: Book<C>) {
    forall i, j :: 0 <= i < |s| && 0 <= j < |s| && s[i].key == s[j].key ==> s[i].group == s[j].group
  }

  ghost predicate BookInv<C>(s: Book<C>) {
    V.Sound(AbsBook(s)) && OneGroupPerKey(s) && forall i :: 0 <= i < |s| ==> RuleOk(s[i])
  }

  lemma InvPlaces<C>(s: Book<C>, i: nat)
    requires BookInv(s) && i < |s|
    ensures s[i].group < |s| && (s[i].isCurrent <==> s[i].status == Active)
  {
    assert V.WellPlaced(AbsBook(s), i) && AbsBook(s)[i] == Abs(s[i]);
  }

  lemma SameGroupSameKey<C>(s: Book<C>, i: nat, j: nat)
    requires BookInv(s) && i < |s| && j < |s| && s[i].group == s[j].group
    ensures s[i].key == s[j].key
  {
    if i < j {
      assert V.Compatible(AbsBook(s)[i], AbsBook(s)[j]);
    } else if j < i {
      assert V.Compatible(AbsBook(s)[j], AbsBook(s)[i]);
    }
  }

  /** The edit of the versioned store that an elementary edit of the book amounts to. */
  function EditOf<C>(s: Book<C>, e: RuleEdit<C>): V.Edit<Authored<C>>
    requires !e.RRow?
  {
    match e
    case RCreate(key, body, actor) => V.DoCreate(key, Authored(body, actor, None))
    case RUpdate(id, body, actor) => V.DoRevise(id, None, Authored(body, actor, None))
    case RApprove(id, approver, ref) =>
      if id < |s| then V.DoAmend(id, Authored(s[id].body, s[id].createdBy, Some(Approval(approver, ref))))
      else V.DoDeactivate(id)
    case RActivate(id) => V.DoActivate(id, (content: Authored<C>) => true)
    case RRetire(id) => V.DoDeactivate(id)
  }

  ghost predicate Simulates<C>(s: Book<C>, e: V.Edit<Authored<C>>, t: Book<C>) {
    V.Apply(AbsBook(s), e) == Ok(AbsBook(t))
  }

  lemma CreateSimulates<C>(s: Book<C>, key: string, body: C, actor: string)
    requires BookInv(s) && Create(s, key, body, actor).Ok?
    ensures Simulates(s, V.DoCreate(key, Authored(body, actor, None)), Create(s, key, body, actor).value)
  {
    var r := RuleDoc(|s|, key, 1, false, Draft, body, actor, None);
    AbsAppend(s, r);
    forall i | 0 <= i < |s| ensures AbsBook(s)[i].key != key {
      assert AbsBook(s)[i] == Abs(s[i]);
    }
  }

  lemma UpdateSimulates<C>(s: Book<C>, id: nat, body: C, actor: string)
    requires BookInv(s) && Update(s, id, body, actor).Ok?
    ensures Simulates(s, V.DoRevise(id, None, Authored(body, actor, None)), Update(s, id, body, actor).value)
  {
    InvPlaces(s, id);
    assert AbsBook(s)[id] == Abs(s[id]);
    var r := s[id];
    if r.status == Active {
      AbsOpen(s, r.group);
      AbsLatest(s, r.group);
      AbsAppend(s, RuleDoc(r.group, r.key, Latest(s, r.group) + 1, false, Draft, body, actor, None));
    } else {
      AbsReplace(s, id, r.(status := Draft, isCurrent := false, body := body, createdBy := actor, approval := None));
    }
  }

  lemma ActivateSimulates<C>(s: Book<C>, id: nat)
    requires BookInv(s) && Activate(s, id).Ok?
    ensures Simulates(s, V.DoActivate(id, (content: Authored<C>) => true), Activate(s, id).value)
  {
    InvPlaces(s, id);
    assert AbsBook(s)[id] == Abs(s[id]);
    if !s[id].isCurrent {
      forall i | 0 <= i < |s| ensures s[i].isCurrent ==> s[i].status == Active { InvPlaces(s, i); }
      AbsPrevious(s, s[id].group, id);
      var previous := Previous(s, s[id].group, id);
      if previous.Some? {
        AbsReplace(s, previous.value, s[previous.value].(status := Retired, isCurrent := false));
        AbsReplace(RetiredAt(s, previous.value), id, s[id].(status := Active, isCurrent := true));
      } else {
        AbsReplace(s, id, s[id].(status := Active, isCurrent := true));
      }
    }
  }

  /** Each elementary edit that a rule book admits, the versioned store admits with the same effect. */
  lemma BookRefinesVersions<C>(s: Book<C>, e: RuleEdit<C>)
    requires BookInv(s) && !e.RRow? && ApplyEdit(s, e).Ok?
    ensures Simulates(s, EditOf(s, e), ApplyEdit(s, e).value)
  {
    match e
    case RCreate(key, body, actor) => CreateSimulates(s, key, body, actor);
    case RUpdate(id, body, actor) => UpdateSimulates(s, id, body, actor);
    case RApprove(id, approver, ref) =>
      AbsReplace(s, id, s[id].(status := Approved, approval := Some(Approval(approver, ref))));
    case RActivate(id) => ActivateSimulates(s, id);
    case RRetire(id) => AbsReplace(s, id, s[id].(status := Retired, isCurrent := false));
  }

  lemma ElementaryKeepsInv<C>(s: Book<C>, e: RuleEdit<C>)
    requires BookInv(s) && !e.RRow? && ApplyEdit(s, e).Ok?
    ensures BookInv(ApplyEdit(s, e).value)
  {
    BookRefinesVersions(s, e);
    V.EditKeepsSound(AbsBook(s), EditOf(s, e));
    if e.RActivate? {
      InvPlaces(s, e.id);
    }
  }

  /** Naming another maker of a draft that nobody approved yet. */
  lemma ReassignKeepsInv<C>(s: Book<C>, id: nat, author: string)
    requires BookInv(s) && id < |s| && s[id].status == Draft
    ensures BookInv(s[id := s[id].(createdBy := author)])
  {
    var t := s[id := s[id].(createdBy := author)];
    var e := V.DoAmend(id, Authored(s[id].body, author, s[id].approval));
    AbsReplace(s, id, s[id].(createdBy := author));
    V.EditKeepsSound(AbsBook(s), e);
  }

  lemma RowKeepsInv<C>(s: Book<C>, key: string, body: C, actor: string, author: string, reviewer: string, ref: string)
    requires BookInv(s) && ApplyRow(s, key, body, actor, author, reviewer, ref).Ok?
    ensures BookInv(ApplyRow(s, key, body, actor, author, reviewer, ref).value)
  {
    var open := NewestOpen(s, key);
    var current := if open.Some? then open else ActiveWithKey(s, key);
    var target := if open.Some? then open.value else |s|;
    var first := if current.Some? then RUpdate(current.value, body, actor) else RCreate(key, body, actor);
    ElementaryKeepsInv(s, first);
    var edited := ApplyEdit(s, first).value;
    ReassignKeepsInv(edited, target, author);
    var reassigned := edited[target := edited[target].(createdBy := author)];
    var approve: RuleEdit<C> := RApprove(target, reviewer, ref);
    ElementaryKeepsInv(reassigned, approve);
    ElementaryKeepsInv(Approve(reassigned, target, reviewer, ref).value, RActivate(target));
  }

  lemma EditKeepsInv<C>(s: Book<C>, e: RuleEdit<C>)
    requires BookInv(s)
    ensures BookInv(After(s, e))
  {
    if ApplyEdit(s, e).Ok? {
      match e
      case RRow(key, body, actor, author, reviewer, ref) => RowKeepsInv(s, key, body, actor, author, reviewer, ref);
      case _ => ElementaryKeepsInv(s, e);
    }
  }

  /**
   * In every run: one group per key and one key per group, at most one active rule and one open rule in each,
   * numbered 1..n, active exactly when current, and active only with a complete approval by another than the last
   * editor.
   */
  lemma {:induction false} RunsKeepInv<C>(edits: seq<RuleEdit<C>>)
    ensures BookInv(Run([], edits))
  {
    if edits != [] {
      RunsKeepInv(edits[..|edits| - 1]);
      EditKeepsInv(Run([], edits[..|edits| - 1]), edits[|edits| - 1]);
    }
  }

  // ----- what a dataset's rule finds to edit

  lemma {:induction false} NewestOpenFails<C>(s: Book<C>, key: string)
    ensures NewestOpen(s, key).None? <==> forall i :: 0 <= i < |s| && s[i].key == key ==> !IsOpen(s[i])
  {
    if s != [] {
      NewestOpenFails(s[..|s| - 1], key);
    }
  }

  lemma {:induction false} ActiveWithKeyFails<C>(s: Book<C>, key: string)
    ensures ActiveWithKey(s, key).None?
            <==> forall i :: 0 <= i < |s| && s[i].key == key ==> !(s[i].isCurrent && s[i].status == Active)
  {
    if s != [] {
      ActiveWithKeyFails(s[..|s| - 1], key);
    }
  }

  /** Every rule with this key is retired, and there is one. */
  predicate OnlyRetired<C>(s: Book<C>, key: string) {
    HasKey(s, key) && forall i :: 0 <= i < |s| && s[i].key == key ==> s[i].status == Retired
  }

  lemma RowEdits<C>(s: Book<C>, key: string, body: C, actor: string)
    requires BookInv(s)
    ensures var open := NewestOpen(s, key);
            var current := if open.Some? then open else ActiveWithKey(s, key);
            var first := if current.Some? then Update(s, current.value, body, actor) else Create(s, key, body, actor);
            var target := if open.Some? then open.value else |s|;
            && (first.Ok? <==> !OnlyRetired(s, key))
            && (first.Ok? ==> target < |first.value| && first.value[target].status == Draft)
  {
    NewestOpenFails(s, key);
    ActiveWithKeyFails(s, key);
    forall i | 0 <= i < |s| ensures s[i].isCurrent <==> s[i].status == Active { InvPlaces(s, i); }
    var open := NewestOpen(s, key);
    var active := ActiveWithKey(s, key);
    if open.None? && active.Some? {
      forall i | 0 <= i < |s| && s[i].group == s[active.value].group ensures !IsOpen(s[i]) {
        SameGroupSameKey(s, i, active.value);
      }
    }
  }

  // ----- what an approval covers

  /** Everything about a rule but its status and currency. */
  predicate SameText<C(==)>(a: RuleDoc<C>, b: RuleDoc<C>) {
    && a.group == b.group && a.key == b.key && a.number == b.number
    && a.body == b.body && a.createdBy == b.createdBy && a.approval == b.approval
  }

  /** The rule `s[i]`, active or retired, is still in `t` with its text; once retired it stays so. */
  predicate Frozen<C(==)>(s: Book<C>, t: Book<C>, i: nat) {
    && i < |s| && i < |t| && SameText(s[i], t[i]) && !IsOpen(t[i])
    && (s[i].status == Retired ==> t[i].status == Retired)
  }

  lemma ElementaryFreezes<C>(s: Book<C>, e: RuleEdit<C>, i: nat)
    requires BookInv(s) && i < |s| && !IsOpen(s[i]) && !e.RRow?
    ensures Frozen(s, After(s, e), i)
  {
    if e.RActivate? && e.id < |s| {
      InvPlaces(s, e.id);
    }
  }

  lemma FrozenOnwards<C>(s: Book<C>, t: Book<C>, u: Book<C>, i: nat)
    requires Frozen(s, t, i) && Frozen(t, u, i)
    ensures Frozen(s, u, i)
  {}

  lemma SignOffFreezes<C>(s: Book<C>, target: nat, reviewer: string, ref: string, i: nat)
    requires BookInv(s) && i < |s| && !IsOpen(s[i])
    requires Approve(s, target, reviewer, ref).Ok?
    ensures Frozen(s, After(After(s, RApprove(target, reviewer, ref)), RActivate(target)), i)
  {
    var approve: RuleEdit<C> := RApprove(target, reviewer, ref);
    ElementaryFreezes(s, approve, i);
    ElementaryKeepsInv(s, approve);
    ElementaryFreezes(After(s, approve), RActivate(target), i);
    FrozenOnwards(s, After(s, approve), After(After(s, approve), RActivate(target)), i);
  }

  lemma ReassignFreezes<C>(s: Book<C>, target: nat, author: string, i: nat)
    requires i < |s| && target < |s| && !IsOpen(s[i]) && IsOpen(s[target])
    ensures Frozen(s, s[target := s[target].(createdBy := author)], i)
  {}

  /** From the edit of a row on: another maker, the approval, the activation. */
  lemma ReassignedFreezes<C>(s: Book<C>, target: nat, author: string, reviewer: string, ref: string, i: nat)
    requires BookInv(s) && i < |s| && target < |s| && !IsOpen(s[i]) && s[target].status == Draft
    ensures var approved := Approve(s[target := s[target].(createdBy := author)], target, reviewer, ref);
            approved.Ok? && Activate(approved.value, target).Ok?
            ==> Frozen(s, Activate(approved.value, target).value, i)
  {
    ReassignKeepsInv(s, target, author);
    ReassignFreezes(s, target, author, i);
    var reassigned := s[target := s[target].(createdBy := author)];
    var approved := Approve(reassigned, target, reviewer, ref);
    if approved.Ok? && Activate(approved.value, target).Ok? {
      SignOffFreezes(reassigned, target, reviewer, ref, i);
      FrozenOnwards(s, reassigned, Activate(approved.value, target).value, i);
    }
  }

  /** The edit that applying a row begins with. */
  function FirstEdit<C>(s: Book<C>, key: string, body: C, actor: string): RuleEdit<C> {
    var open := NewestOpen(s, key);
    var current := if open.Some? then open else ActiveWithKey(s, key);
    if current.Some? then RUpdate(current.value, body, actor) else RCreate(key, body, actor)
  }

  lemma RowIsFourSteps<C>(s: Book<C>, key: string, body: C, actor: string, author: string, reviewer: string,
                          ref: string)
    requires ApplyRow(s, key, body, actor, author, reviewer, ref).Ok?
    ensures var open := NewestOpen(s, key);
            var target := if open.Some? then open.value else |s|;
            var edited := ApplyEdit(s, FirstEdit(s, key, body, actor));
            && edited.Ok? && target < |edited.value|
            && var reassigned := edited.value[target := edited.value[target].(createdBy := author)];
               var approved := Approve(reassigned, target, reviewer, ref);
               approved.Ok? && ApplyRow(s, key, body, actor, author, reviewer, ref) == Activate(approved.value, target)
  {}

  lemma RowFreezes<C>(s: Book<C>, key: string, body: C, actor: string, author: string, reviewer: string, ref: string,
                      i: nat)
    requires BookInv(s) && i < |s| && !IsOpen(s[i])
    requires ApplyRow(s, key, body, actor, author, reviewer, ref).Ok?
    ensures Frozen(s, ApplyRow(s, key, body, actor, author, reviewer, ref).value, i)
  {
    var open := NewestOpen(s, key);
    var target := if open.Some? then open.value else |s|;
    var first := FirstEdit(s, key, body, actor);
    RowIsFourSteps(s, key, body, actor, author, reviewer, ref);
    RowEdits(s, key, body, actor);
    ElementaryFreezes(s, first, i);
    ElementaryKeepsInv(s, first);
    ReassignedFreezes(After(s, first), target, author, reviewer, ref, i);
    FrozenOnwards(s, After(s, first), ApplyRow(s, key, body, actor, author, reviewer, ref).value, i);
  }

  /** A rule that became active or retired keeps its text, its maker and its approval through every edit. */
  lemma EditFreezes<C>(s: Book<C>, e: RuleEdit<C>, i: nat)
    requires BookInv(s) && i < |s| && !IsOpen(s[i])
    ensures Frozen(s, After(s, e), i)
  {
    if ApplyEdit(s, e).Ok? {
      match e
      case RRow(key, body, actor, author, reviewer, ref) => RowFreezes(s, key, body, actor, author, reviewer, ref, i);
      case _ => ElementaryFreezes(s, e, i);
    }
  }

  lemma {:induction false} ActivatedIsFrozen<C>(s: Book<C>, edits: seq<RuleEdit<C>>, i: nat)
    requires BookInv(s) && i < |s| && !IsOpen(s[i])
    ensures BookInv(Run(s, edits)) && Frozen(s, Run(s, edits), i)
  {
    if edits != [] {
      var n := |edits| - 1;
      ActivatedIsFrozen(s, edits[..n], i);
      EditKeepsInv(Run(s, edits[..n]), edits[n]);
      EditFreezes(Run(s, edits[..n]), edits[n], i);
    }
  }

  /** The rule a dataset's row leaves active: the row's text, made by its author and approved by its reviewer. */
  predicate SignedOff<C(==)>(r: RuleDoc<C>, key: string, body: C, author: string, reviewer: string, ref: string) {
    && r.status == Active && r.key == key && r.body == body
    && r.createdBy == author && r.approval == Some(Approval(reviewer, ref)) && reviewer != author
  }

  lemma SignOffCovers<C>(s: Book<C>, target: nat, reviewer: string, ref: string, i: nat)
    requires target < |s| && i < |s| && s[target].status == Draft
    requires Approve(s, target, reviewer, ref).Ok? && Activate(Approve(s, target, reviewer, ref).value, target).Ok?
    ensures var t := Activate(Approve(s, target, reviewer, ref).value, target).value;
            && |t| == |s|
            && (i == target ==> SignedOff(t[i], s[i].key, s[i].body, s[i].createdBy, reviewer, ref))
            && (i != target ==> SameText(s[i], t[i]))
  {}

  lemma RowSignsOff<C>(s: Book<C>, key: string, body: C, actor: string, author: string, reviewer: string, ref: string,
                       i: nat)
    requires BookInv(s) && ApplyRow(s, key, body, actor, author, reviewer, ref).Ok?
    requires i < |ApplyRow(s, key, body, actor, author, reviewer, ref).value|
    ensures var t := ApplyRow(s, key, body, actor, author, reviewer, ref).value;
            || SignedOff(t[i], key, body, author, reviewer, ref)
            || (i < |s| && SameText(s[i], t[i]))
  {
    RowEdits(s, key, body, actor);
    var open := NewestOpen(s, key);
    var current := if open.Some? then open else ActiveWithKey(s, key);
    var target := if open.Some? then open.value else |s|;
    var edited := (if current.Some? then Update(s, current.value, body, actor) else Create(s, key, body, actor)).value;
    SignOffCovers(edited[target := edited[target].(createdBy := author)], target, reviewer, ref, i);
  }

  /**
   * What an approval covers after any edit: what it covered before, or the draft somebody else than its maker just
   * approved, or the text a dataset's row put in its place in the same step, under the row's author and reviewer.
   */
  lemma ApprovalCoversText<C>(s: Book<C>, e: RuleEdit<C>, i: nat)
    requires BookInv(s) && i < |After(s, e)|
    ensures |s| <= |After(s, e)|
    ensures var r := After(s, e)[i];
            r.approval.Some? ==>
              || (i < |s| && SameText(s[i], r))
              || (e.RApprove? && e.id == i && i < |s| && s[i].approval.None? && e.approver != s[i].createdBy
                  && SameText(s[i].(approval := Some(Approval(e.approver, e.ref))), r))
              || (e.RRow? && SignedOff(r, e.key, e.body, e.author, e.reviewer, e.ref))
  {
    if e.RRow? && ApplyEdit(s, e).Ok? {
      RowEdits(s, e.key, e.body, e.actor);
      RowSignsOff(s, e.key, e.body, e.actor, e.author, e.reviewer, e.ref, i);
    }
  }

  // ----- when a dataset's rule can be applied

  /**
   * A dataset's rule is applied exactly when its reviewer is not its author, the reference is not blank, and the key
   * is not one whose rules are all retired: such a key can neither be edited nor created again.
   */
  lemma RowAppliesIff<C>(s: Book<C>, key: string, body: C, actor: string, author: string, reviewer: string, ref: string)
    requires BookInv(s)
    ensures ApplyRow(s, key, body, actor, author, reviewer, ref).Ok?
            <==> author != reviewer && !Blank(ref) && !OnlyRetired(s, key)
  {
    RowEdits(s, key, body, actor);
  }

  // ----- the rules collection as the service changes it

  class RuleBook<C> {
    var rules: Book<C>
    /** The rules the audit log has an activation of. */
    var recorded: set<nat>

    constructor ()
      ensures rules == [] && recorded == {}
    {
      rules, recorded := [], {};
    }

    method CreateRule(key: string, body: C, actor: string) returns (refusal: Option<Why>)
      modifies `rules
      ensures match Create(old(rules), key, body, actor)
              case Ok(s) => refusal.None? && rules == s
              case Err(e) => refusal == Some(e) && rules == old(rules)
    {
      for i := 0 to |rules|
        invariant forall j :: 0 <= j < i ==> rules[j].key != key
      {
        if rules[i].key == key { return Some(KeyTaken); }
      }
      rules := rules + [RuleDoc(|rules|, key, 1, false, Draft, body, actor, None)];
      refusal := None;
    }

    method UpdateRule(id: nat, body: C, actor: string) returns (refusal: Option<Why>)
      modifies `rules
      ensures match Update(old(rules), id, body, actor)
              case Ok(s) => refusal.None? && rules == s
              case Err(e) => refusal == Some(e) && rules == old(rules)
    {
      if id >= |rules| { return Some(NotFound); }
      var doc := rules[id];
      if doc.status == Retired { return Some(IsRetired); }
      if doc.status == Active {
        var latest := 0;
        for i := 0 to |rules|
          invariant forall j :: 0 <= j < i ==> !(rules[j].group == doc.group && IsOpen(rules[j]))
          invariant latest == Latest(rules[..i], doc.group)
        {
          if rules[i].group == doc.group && IsOpen(rules[i]) { return Some(ReplacementIsOpen); }
          assert rules[..i + 1][..i] == rules[..i];
          if rules[i].group == doc.group && rules[i].number > latest { latest := rules[i].number; }
        }
        assert rules[..|rules|] == rules;
        rules := rules + [RuleDoc(doc.group, doc.key, latest + 1, false, Draft, body, actor, None)];
        return None;
      }
      doc := doc.(body := body);
      doc := doc.(status := Draft);
      doc := doc.(isCurrent := false);
      doc := doc.(createdBy := actor);
      doc := doc.(approval := None);
      rules := rules[id := doc];
      refusal := None;
    }

    method ApproveRule(id: nat, approver: string, ref: string) returns (refusal: Option<Why>)
      modifies `rules
      ensures match Approve(old(rules), id, approver, ref)
              case Ok(s) => refusal.None? && rules == s
              case Err(e) => refusal == Some(e) && rules == old(rules)
    {
      if id >= |rules| { return Some(NotFound); }
      if rules[id].status != Draft { return Some(NotADraft); }
      if rules[id].createdBy == approver { return Some(SelfApproved); }
      rules := rules[id := rules[id].(status := Approved, approval := Some(Approval(approver, ref)))];
      refusal := None;
    }

    /** An activation is recorded when it happens; one that went unrecorded is recorded the next time. */
    method ActivateRule(id: nat) returns (refusal: Option<Why>, wrote: bool)
      modifies this
      ensures wrote <==> refusal.None? && id < |old(rules)| && !(old(rules)[id].status == Active && id in old(recorded))
      ensures recorded == if refusal.None? then old(recorded) + {id} else old(recorded)
      ensures match Activate(old(rules), id)
              case Ok(s) => refusal.None? && rules == s
              case Err(e) => refusal == Some(e) && rules == old(rules)
    {
      if id >= |rules| { return Some(NotFound), false; }
      var doc := rules[id];
      if doc.status == Active && doc.isCurrent {
        wrote := id !in recorded;
        recorded := recorded + {id};
        return None, wrote;
      }
      var repairing := doc.status == Active;
      if (!repairing && doc.status != Approved) || !Complete(doc.approval) { return Some(NotApproved), false; }
      var previous: Option<nat> := None;
      for i := 0 to |rules|
        invariant previous == Previous(rules[..i], doc.group, id)
      {
        assert rules[..i + 1][..i] == rules[..i];
        if previous.None? && rules[i].group == doc.group && rules[i].isCurrent && rules[i].status == Active && i != id {
          previous := Some(i);
        }
      }
      assert rules[..|rules|] == rules;
      if previous.Some? {
        rules := rules[previous.value := rules[previous.value].(status := Retired, isCurrent := false)];
      }
      rules := rules[id := doc.(status := Active, isCurrent := true)];
      wrote := !repairing || id !in recorded;
      recorded := recorded + {id};
      refusal := None;
    }

    method RetireRule(id: nat) returns (refusal: Option<Why>)
      modifies `rules
      ensures match Retire(old(rules), id)
              case Ok(s) => refusal.None? && rules == s
              case Err(e) => refusal == Some(e) && rules == old(rules)
    {
      if id >= |rules| { return Some(NotFound); }
      if rules[id].status == Retired { return None; }
      rules := rules[id := rules[id].(status := Retired, isCurrent := false)];
      refusal := None;
    }
  }
}
