/**
 * Change control of scoring matrices (src/modules/scoring/service.ts) and the approval record they share with rules:
 * an edit makes its editor the maker and clears the approval, and only somebody else may approve. Activating a dataset
 * (src/modules/datasets/service.ts:270-301) names the dataset's author as the maker and its reviewer as the approver.
 */
module Approval {
  import opened Prelude
  import opened Versions

  datatype Approval = Approval(approver: string, changeRef: string)

  /** A body under change control. */
  datatype Authored<+C> = Authored(body: C, createdBy: string, approval: Option<Approval>)

  predicate IsSpace(c: char) {
    || '\t' <= c <= '\r' || c == ' ' || c == '\U{00A0}' || c == '\U{1680}' || '\U{2000}' <= c <= '\U{200A}'
    || c == '\U{2028}' || c == '\U{2029}' || c == '\U{202F}' || c == '\U{205F}' || c == '\U{3000}' || c == '\U{FEFF}'
  }

  /** Nothing is left of the text once it is trimmed. */
  predicate Blank(s: string) {
    forall i :: 0 <= i < |s| ==> IsSpace(s[i])
  }

  predicate Complete(approval: Option<Approval>) {
    approval.Some? && !Blank(approval.value.changeRef)
  }

  /** Nobody approved what they made. */
  predicate FourEyes(createdBy: string, approval: Option<Approval>) {
    approval.Some? ==> approval.value.approver != createdBy
  }

  // ----- matrices

  type Matrices<+C> = Store<Authored<C>>

  datatype Refused = Because(why: Refusal) | SelfApproval

  type Outcome<+C> = Result<Matrices<C>, Refused>

  function FromChange<C>(c: Change<Authored<C>>): Outcome<C> {
    match c
    case Ok(s) => Ok(s)
    case Err(why) => Err(Because(why))
  }

  function CreateMatrix<C>(s: Matrices<C>, key: string, body: C, actor: string): Outcome<C> {
    FromChange(CreateDraft(s, key, Authored(body, actor, None)))
  }

  function UpdateMatrix<C>(s: Matrices<C>, id: nat, key: Option<string>, body: C, actor: string): Outcome<C> {
    FromChange(Revise(s, id, key, Authored(body, actor, None)))
  }

  function ApproveMatrix<C>(s: Matrices<C>, id: nat, approver: string, changeRef: string): Outcome<C> {
    if id >= |s| then Err(Because(NotFound))
    else if s[id].status != Draft then Err(Because(NotADraft))
    else if s[id].content.createdBy == approver then Err(SelfApproval)
    else FromChange(AmendDraft(s, id, s[id].content.(approval := Some(Approval(approver, changeRef)))))
  }

  function Admitted<C>(): Authored<C> -> bool {
    (content: Authored<C>) => Complete(content.approval)
  }

  function ActivateMatrix<C>(s: Matrices<C>, id: nat): Outcome<C> {
    FromChange(Activate(s, id, Admitted()))
  }

  function DeactivateMatrix<C>(s: Matrices<C>, id: nat): Outcome<C> {
    FromChange(Deactivate(s, id))
  }

  /** Applying a dataset's scoring sheet; any refusal aborts the whole transaction. */
  function ApplySheet<C>(s: Matrices<C>, key: string, body: C, actor: string, author: string, reviewer: string,
                         ref: string): Outcome<C>
  {
    var current := CurrentWithKey(s, key);
    match (if current.Some? then UpdateMatrix(s, current.value, None, body, actor)
           else CreateMatrix(s, key, body, actor))
    case Err(why) => Err(why)
    case Ok(edited) =>
      var target := Target(s, current);
      match FromChange(AmendDraft(edited, target, Authored(body, author, None)))
      case Err(why) => Err(why)
      case Ok(reassigned) =>
        match ApproveMatrix(reassigned, target, reviewer, ref)
        case Err(why) => Err(why)
        case Ok(approved) => ActivateMatrix(approved, target)
  }

  datatype MatrixEdit<+C> =
    | MCreate(key: string, body: C, actor: string)
    | MUpdate(id: nat, newKey: Option<string>, body: C, actor: string)
    | MApprove(id: nat, approver: string, changeRef: string)
    | MActivate(id: nat)
    | MDeactivate(id: nat)
    | MSheet(key: string, body: C, actor: string, author: string, reviewer: string, ref: string)

  function ApplyEdit<C>(s: Matrices<C>, e: MatrixEdit<C>): Outcome<C> {
    match e
    case MCreate(key, body, actor) => CreateMatrix(s, key, body, actor)
    case MUpdate(id, newKey, body, actor) => UpdateMatrix(s, id, newKey, body, actor)
    case MApprove(id, approver, ref) => ApproveMatrix(s, id, approver, ref)
    case MActivate(id) => ActivateMatrix(s, id)
    case MDeactivate(id) => DeactivateMatrix(s, id)
    case MSheet(key, body, actor, author, reviewer, ref) => ApplySheet(s, key, body, actor, author, reviewer, ref)
  }

  function AfterEdit<C>(s: Matrices<C>, e: MatrixEdit<C>): Matrices<C> {
    var r := ApplyEdit(s, e);
    if r.Ok? then r.value else s
  }

  function RunEdits<C>(edits: seq<MatrixEdit<C>>): Matrices<C> {
    if edits == [] then [] else AfterEdit(RunEdits(edits[..|edits| - 1]), edits[|edits| - 1])
  }

  /** The body that an edit brings in, if it brings in any. */
  function Brings<C>(e: MatrixEdit<C>): Option<C> {
    match e
    case MCreate(_, body, _) => Some(body)
    case MUpdate(_, _, body, _) => Some(body)
    case MSheet(_, body, _, _, _, _) => Some(body)
    case _ => None
  }

  /** No matrix has a body that was neither there nor brought in. */
  lemma EditBrings<C>(s: Matrices<C>, e: MatrixEdit<C>, i: nat)
    requires i < |AfterEdit(s, e)|
    ensures (i < |s| && AfterEdit(s, e)[i].content.body == s[i].content.body)
            || Brings(e) == Some(AfterEdit(s, e)[i].content.body)
  {
    if ApplyEdit(s, e).Ok? {
      match e
      case MSheet(key, body, actor, author, reviewer, ref) =>
        SheetBrings(s, key, body, actor, author, reviewer, ref, i);
      case _ =>
    }
  }

  lemma SheetBrings<C>(s: Matrices<C>, key: string, body: C, actor: string, author: string, reviewer: string,
                       ref: string, i: nat)
    requires ApplySheet(s, key, body, actor, author, reviewer, ref).Ok?
    requires i < |ApplySheet(s, key, body, actor, author, reviewer, ref).value|
    ensures var t := ApplySheet(s, key, body, actor, author, reviewer, ref).value;
            (i < |s| && t[i].content.body == s[i].content.body) || t[i].content.body == body
  {
    var current := CurrentWithKey(s, key);
    var edited :=
      (if current.Some? then UpdateMatrix(s, current.value, None, body, actor)
       else CreateMatrix(s, key, body, actor)).value;
    var target := Target(s, current);
    var reassigned := AmendDraft(edited, target, Authored(body, author, None)).value;
    var approved := ApproveMatrix(reassigned, target, reviewer, ref).value;
    assert approved[target].content.body == body;
    var activate := DoActivate(target, Admitted());
    Versions.EditBrings(approved, activate, i);
  }

  // ----- four eyes over every run

  predicate Reviewed<C>(v: Version<Authored<C>>) {
    FourEyes(v.content.createdBy, v.content.approval) && (v.status == Active ==> Complete(v.content.approval))
  }

  ghost predicate MatrixInv<C>(s: Matrices<C>) {
    Sound(s) && forall i :: 0 <= i < |s| ==> Reviewed(s[i])
  }

  lemma StepKeepsInv<C>(s: Matrices<C>, e: Edit<Authored<C>>)
    requires MatrixInv(s) && Apply(s, e).Ok?
    requires match e
             case DoCreate(_, content) => content.approval.None?
             case DoRevise(_, _, content) => content.approval.None?
             case DoAmend(_, content) => FourEyes(content.createdBy, content.approval)
             case DoActivate(_, admitted) => admitted == Admitted()
             case DoDeactivate(_) => true
    ensures MatrixInv(Apply(s, e).value)
  {
    EditKeepsSound(s, e);
  }

  lemma ApproveKeepsInv<C>(s: Matrices<C>, id: nat, approver: string, ref: string)
    requires MatrixInv(s) && ApproveMatrix(s, id, approver, ref).Ok?
    ensures MatrixInv(ApproveMatrix(s, id, approver, ref).value)
  {
    StepKeepsInv(s, DoAmend(id, s[id].content.(approval := Some(Approval(approver, ref)))));
  }

  lemma SheetKeepsInv<C>(s: Matrices<C>, key: string, body: C, actor: string, author: string, reviewer: string,
                         ref: string)
    requires MatrixInv(s) && ApplySheet(s, key, body, actor, author, reviewer, ref).Ok?
    ensures MatrixInv(ApplySheet(s, key, body, actor, author, reviewer, ref).value)
  {
    var current := CurrentWithKey(s, key);
    var target := Target(s, current);
    var content := Authored(body, actor, None);
    var first: Edit<Authored<C>> :=
      if current.Some? then DoRevise(current.value, None, content) else DoCreate(key, content);
    StepKeepsInv(s, first);
    var edited := Apply(s, first).value;
    var again: Edit<Authored<C>> := DoAmend(target, Authored(body, author, None));
    StepKeepsInv(edited, again);
    var reassigned := Apply(edited, again).value;
    ApproveKeepsInv(reassigned, target, reviewer, ref);
    var approved := ApproveMatrix(reassigned, target, reviewer, ref).value;
    StepKeepsInv(approved, DoActivate(target, Admitted()));
  }

  lemma EditKeepsInv<C>(s: Matrices<C>, e: MatrixEdit<C>)
    requires MatrixInv(s)
    ensures MatrixInv(AfterEdit(s, e))
  {
    if ApplyEdit(s, e).Ok? {
      match e
      case MCreate(key, body, actor) => StepKeepsInv(s, DoCreate(key, Authored(body, actor, None)));
      case MUpdate(id, newKey, body, actor) => StepKeepsInv(s, DoRevise(id, newKey, Authored(body, actor, None)));
      case MApprove(id, approver, ref) => ApproveKeepsInv(s, id, approver, ref);
      case MActivate(id) => StepKeepsInv(s, DoActivate(id, Admitted()));
      case MDeactivate(id) => StepKeepsInv(s, DoDeactivate(id));
      case MSheet(key, body, actor, author, reviewer, ref) => SheetKeepsInv(s, key, body, actor, author, reviewer, ref);
    }
  }

  /** In every run every active matrix carries a complete approval by somebody other than its recorded last editor. */
  lemma {:induction false} MatricesNeedFourEyes<C>(edits: seq<MatrixEdit<C>>)
    ensures MatrixInv(RunEdits(edits))
  {
    if edits != [] {
      MatricesNeedFourEyes(edits[..|edits| - 1]);
      EditKeepsInv(RunEdits(edits[..|edits| - 1]), edits[|edits| - 1]);
    }
  }

  lemma SheetLeavesStored<C>(s: Matrices<C>, key: string, body: C, actor: string, author: string, reviewer: string,
                             ref: string, i: nat)
    requires Sound(s) && i < |s| && ApplySheet(s, key, body, actor, author, reviewer, ref).Ok?
    ensures var t := ApplySheet(s, key, body, actor, author, reviewer, ref).value;
            i < |t| && t[i].content == s[i].content
  {
    var current := CurrentWithKey(s, key);
    if current.Some? {
      assert WellPlaced(s, current.value);
    }
  }

  /** In every run, an approval that outlives an edit still covers the body and the maker it was given for. */
  lemma ApprovalCoversBody<C>(s: Matrices<C>, e: MatrixEdit<C>, i: nat)
    requires MatrixInv(s) && i < |s|
    ensures i < |AfterEdit(s, e)|
    ensures var v, w := s[i].content, AfterEdit(s, e)[i].content;
            && (w.approval.Some? ==> w.body == v.body && w.createdBy == v.createdBy)
            && (w.approval.Some? && w.approval != v.approval ==> e.MApprove? && e.id == i && e.approver != v.createdBy)
  {
    if ApplyEdit(s, e).Ok? {
      match e
      case MSheet(key, body, actor, author, reviewer, ref) =>
        SheetLeavesStored(s, key, body, actor, author, reviewer, ref, i);
      case _ =>
    }
  }

  /** A scoring sheet is applied exactly when its reviewer is not its author and no draft is in its way. */
  lemma SheetAppliesIff<C>(s: Matrices<C>, key: string, body: C, actor: string, author: string, reviewer: string,
                           ref: string)
    requires Sound(s) && !Blank(ref)
    ensures ApplySheet(s, key, body, actor, author, reviewer, ref).Ok?
            <==> author != reviewer
                 && !DraftInTheWay(s, key)
  {
    CurrentWithKeyFails(s, key);
    var current := CurrentWithKey(s, key);
    if current.Some? {
      assert WellPlaced(s, current.value);
    }
  }

  // ----- the service's own steps on the stored documents

  /** Recording an approval on a stored draft. */
  method RecordApproval<C>(matrices: Collection<Authored<C>>, id: nat, approver: string, ref: string)
    returns (refused: Option<Refused>)
    modifies matrices
    ensures match ApproveMatrix(old(matrices.docs), id, approver, ref)
            case Ok(s) => refused.None? && matrices.docs == s
            case Err(e) => refused == Some(e) && matrices.docs == old(matrices.docs)
  {
    if id >= |matrices.docs| { return Some(Because(NotFound)); }
    var doc := matrices.docs[id];
    if doc.status != Draft { return Some(Because(NotADraft)); }
    if doc.content.createdBy == approver { return Some(SelfApproval); }
    var refusal := matrices.SaveDraft(id, doc.content.(approval := Some(Approval(approver, ref))));
    return None;
  }

  /** The matrix part of a dataset's activation: edit or create, name the maker, approve, activate, or undo it all. */
  method ActivateSheet<C>(matrices: Collection<Authored<C>>, key: string, body: C, actor: string, author: string,
                          reviewer: string, ref: string) returns (refused: Option<Refused>)
    modifies matrices
    ensures match ApplySheet(old(matrices.docs), key, body, actor, author, reviewer, ref)
            case Ok(s) => refused.None? && matrices.docs == s
            case Err(e) => refused == Some(e) && matrices.docs == old(matrices.docs)
  {
    var before := matrices.docs;
    var current: Option<nat> := None;
    for i := 0 to |before|
      invariant matrices.docs == before && current == CurrentWithKey(before[..i], key)
    {
      assert before[..i + 1][..i] == before[..i];
      if current.None? && before[i].isCurrent && before[i].key == key { current := Some(i); }
    }
    assert before[..|before|] == before;
    var refusal: Option<Refusal>;
    if current.Some? {
      refusal := matrices.Update(current.value, None, Authored(body, actor, None));
    } else {
      refusal := matrices.Create(key, Authored(body, actor, None));
    }
    if refusal.Some? { return Some(Because(refusal.value)); }
    var target := Target(before, current);
    refusal := matrices.SaveDraft(target, Authored(body, author, None));
    if refusal.None? {
      refused := RecordApproval(matrices, target, reviewer, ref);
      if refused.Some? {
        matrices.docs := before;
        return;
      }
      refusal := matrices.MakeActive(target, Admitted());
    }
    if refusal.Some? {
      matrices.docs := before;
      return Some(Because(refusal.value));
    }
    refused := None;
  }
}
