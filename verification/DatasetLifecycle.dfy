/**
 * The lifecycle of an uploaded dataset (src/modules/datasets/service.ts:174-329) beside everything else administrators
 * do to personas, questions, scenarios, matrices, rules and the tenant's sectors: uploaded and validated, approved by
 * somebody else, then activated once, all or nothing, or failed for good.
 */
module DatasetLifecycle {
  import opened Prelude
  import A = Approval
  import D = Datasets
  import R = RuleLifecycle
  import V = Versions
  import AuditRecords

  datatype Status = Rejected | Validated | Approved | Active | Failed

  datatype Row<+C> = Row(key: string, body: C)

  /** The scoring sheet gives a matrix and rules; the other sheets are `content`. */
  datatype Upload<+M, +C> = Upload(
    author: string, reviewer: Option<string>, status: Status,
    content: D.Dataset, sheet: Option<Row<M>>, rules: seq<Row<C>>)

  /** What a matrix and a rule say, and the sectors they are for; a scoring sheet never names any. */
  datatype MatrixBody<+M> = MatrixBody(sector: Option<string>, text: M)

  datatype RuleBody<+C> = RuleBody(sectors: seq<string>, text: C)

  type Matrices<+M> = A.Matrices<MatrixBody<M>>

  type Book<+C> = R.Book<RuleBody<C>>

  datatype State<+M, +C> = State(
    uploads: seq<Upload<M, C>>, library: D.Library, matrices: Matrices<M>, book: Book<C>)

  datatype Why = NotFound | NotValidated | SelfApproval | NotApproved | ContentRefused

  /** Who activates a dataset, who made it, who reviewed it, and the reference on every approval this records. */
  datatype SignOff = SignOff(actor: string, author: string, reviewer: string, ref: string)

  function Reference(id: nat): string {
    "dataset #" + AuditRecords.Decimal(id + 1)
  }

  // ----- the operations

  /** A file the parser is content with is validated against the library of the moment. */
  ghost function Uploaded<M, C>(s: State<M, C>, author: string, parsed: bool, content: D.Dataset,
                                sheet: Option<Row<M>>, rules: seq<Row<C>>): State<M, C>
  {
    var valid := parsed && D.OneRowPerKey(content) && D.Accepts(s.library, content);
    var status := if valid then Validated else Rejected;
    s.(uploads := s.uploads + [Upload(author, None, status, content, sheet, rules)])
  }

  function Approve<M, C>(s: State<M, C>, id: nat, reviewer: string): Result<State<M, C>, Why> {
    if id >= |s.uploads| then Err(NotFound)
    else if s.uploads[id].status != Validated then Err(NotValidated)
    else if s.uploads[id].author == reviewer then Err(SelfApproval)
    else Ok(s.(uploads := s.uploads[id := s.uploads[id].(status := Approved, reviewer := Some(reviewer))]))
  }

  function MatrixSectors<M>(body: MatrixBody<M>): seq<string> {
    if body.sector.Some? then [body.sector.value] else []
  }

  /** The matrix that a sheet leads to: the stored one keeps its sector, a new one has none. */
  function SheetBody<M>(matrices: Matrices<M>, sheet: Row<M>): MatrixBody<M> {
    var current := V.CurrentWithKey(matrices, sheet.key);
    MatrixBody(if current.Some? then matrices[current.value].content.body.sector else None, sheet.body)
  }

  function ApplySheet<M>(sectors: set<string>, matrices: Matrices<M>, sheet: Option<Row<M>>, signed: SignOff)
    : Option<Matrices<M>>
  {
    if sheet.None? then Some(matrices)
    else
      var body := SheetBody(matrices, sheet.value);
      if !D.GuardPasses(sectors, MatrixSectors(body)) then None
      else
        match A.ApplySheet(matrices, sheet.value.key, body, signed.actor, signed.author, signed.reviewer, signed.ref)
        case Err(_) => None
        case Ok(next) => Some(next)
  }

  /** The rule that a dataset's row edits, if any. */
  function RuleFor<C>(book: Book<C>, key: string): (r: Option<nat>)
    ensures r.Some? ==> r.value < |book| && book[r.value].key == key
  {
    var open := R.NewestOpen(book, key);
    if open.Some? then open else R.ActiveWithKey(book, key)
  }

  /** The rule that a row leads to: the stored one keeps its sectors, a new one has none. */
  function RowBody<C>(book: Book<C>, row: Row<C>): RuleBody<C> {
    var current := RuleFor(book, row.key);
    RuleBody(if current.Some? then book[current.value].body.sectors else [], row.body)
  }

  function ApplyRule<C>(sectors: set<string>, book: Book<C>, row: Row<C>, signed: SignOff): Option<Book<C>> {
    var body := RowBody(book, row);
    if !D.GuardPasses(sectors, body.sectors) then None
    else
      match R.ApplyRow(book, row.key, body, signed.actor, signed.author, signed.reviewer, signed.ref)
      case Err(_) => None
      case Ok(next) => Some(next)
  }

  function ApplyRules<C>(sectors: set<string>, book: Book<C>, rows: seq<Row<C>>, signed: SignOff): Option<Book<C>> {
    if rows == [] then Some(book)
    else
      match ApplyRules(sectors, book, rows[..|rows| - 1], signed)
      case None => None
      case Some(before) => ApplyRule(sectors, before, rows[|rows| - 1], signed)
  }

  function SignedOff<M, C>(u: Upload<M, C>, id: nat, actor: string): SignOff
    requires u.reviewer.Some?
  {
    SignOff(actor, u.author, u.reviewer.value, Reference(id))
  }

  /** The content transaction of an approved dataset. */
  ghost function Applied<M, C>(s: State<M, C>, id: nat, actor: string): Option<State<M, C>>
    requires id < |s.uploads| && s.uploads[id].reviewer.Some?
  {
    var u := s.uploads[id];
    var signed := SignedOff(u, id, actor);
    match D.Applied(s.library, u.content)
    case None => None
    case Some(library) =>
      match ApplySheet(s.library.sectors, s.matrices, u.sheet, signed)
      case None => None
      case Some(matrices) =>
        match ApplyRules(s.library.sectors, s.book, u.rules, signed)
        case None => None
        case Some(book) => Some(State(s.uploads[id := u.(status := Active)], library, matrices, book))
  }

  /** Refused content leaves everything else alone and marks the dataset failed. */
  ghost function Activated<M, C>(s: State<M, C>, id: nat, actor: string): (State<M, C>, Option<Why>) {
    if id >= |s.uploads| then (s, Some(NotFound))
    else if s.uploads[id].status != Approved || s.uploads[id].reviewer.None? then (s, Some(NotApproved))
    else
      match Applied(s, id, actor)
      case Some(t) => (t, None)
      case None => (s.(uploads := s.uploads[id := s.uploads[id].(status := Failed)]), Some(ContentRefused))
  }

  // ----- the tenant's sectors

  predicate MatrixNames<M>(matrices: Matrices<M>, sector: string) {
    exists i :: 0 <= i < |matrices| && sector in MatrixSectors(matrices[i].content.body)
  }

  predicate RuleNames<C>(book: Book<C>, sector: string) {
    exists i :: 0 <= i < |book| && sector in book[i].body.sectors
  }

  /** Some stored version of some content names the sector, whatever its status. */
  predicate StoredNames<M, C>(s: State<M, C>, sector: string) {
    D.ContentNames(s.library, sector) || MatrixNames(s.matrices, sector) || RuleNames(s.book, sector)
  }

  /** Some dataset that may still be activated names it. */
  predicate AwaitedNames<M, C>(uploads: seq<Upload<M, C>>, sector: string) {
    exists i :: 0 <= i < |uploads| && UploadNames(uploads[i], sector)
  }

  predicate UploadNames<M, C>(u: Upload<M, C>, sector: string) {
    && (u.status == Validated || u.status == Approved)
    && ((exists p :: p in u.content.personas && p.body.sector == sector)
        || (exists q :: q in u.content.questions && sector in q.sectors))
  }

  predicate IsNamed<M, C>(s: State<M, C>, sector: string) {
    StoredNames(s, sector) || AwaitedNames(s.uploads, sector)
  }

  /** The tenant's settings: sectors come freely, but none goes that is still named. */
  function Resectored<M, C>(s: State<M, C>, wanted: set<string>): State<M, C> {
    if exists x :: x in s.library.sectors - wanted && IsNamed(s, x) then s
    else s.(library := s.library.(sectors := wanted))
  }

  /** Every edit of content that names sectors is guarded; a question is edited in any other way at all. */
  datatype Op<M, C> =
    | DUpload(author: string, parsed: bool, content: D.Dataset, sheet: Option<Row<M>>, rules: seq<Row<C>>)
    | DApprove(id: nat, reviewer: string)
    | DActivate(id: nat, actor: string)
    | DMatrix(matrixEdit: A.MatrixEdit<MatrixBody<M>>)
    | DRule(ruleEdit: R.RuleEdit<RuleBody<C>>)
    | DPersona(personaEdit: V.Edit<D.PersonaBody>)
    | DScenario(scenarioEdit: V.Edit<D.ScenarioBody>)
    | DQuestion(key: string, question: D.Stored)
    | DSectors(wanted: set<string>)

  /** The sectors named by what an operation stores directly. */
  function NamedBy<M, C>(op: Op<M, C>): seq<string> {
    match op
    case DMatrix(edit) => if A.Brings(edit).Some? then MatrixSectors(A.Brings(edit).value) else []
    case DRule(edit) => if R.Brings(edit).Some? then R.Brings(edit).value.sectors else []
    case DPersona(edit) => if V.Brings(edit).Some? then [V.Brings(edit).value.sector] else []
    case DQuestion(_, question) => question.sectors
    case _ => []
  }

  ghost function Step<M, C>(s: State<M, C>, op: Op<M, C>): State<M, C> {
    if !D.GuardPasses(s.library.sectors, NamedBy(op)) then s else Admitted(s, op)
  }

  ghost function Admitted<M, C>(s: State<M, C>, op: Op<M, C>): State<M, C> {
    match op
    case DUpload(author, parsed, content, sheet, rules) => Uploaded(s, author, parsed, content, sheet, rules)
    case DApprove(id, reviewer) =>
      var r := Approve(s, id, reviewer);
      if r.Ok? then r.value else s
    case DActivate(id, actor) => Activated(s, id, actor).0
    case DMatrix(edit) => s.(matrices := A.AfterEdit(s.matrices, edit))
    case DRule(edit) => s.(book := R.After(s.book, edit))
    case DPersona(edit) => s.(library := s.library.(personas := V.After(s.library.personas, edit)))
    case DScenario(edit) => s.(library := s.library.(scenarios := V.After(s.library.scenarios, edit)))
    case DQuestion(key, question) => s.(library := s.library.(questions := s.library.questions[key := question]))
    case DSectors(wanted) => Resectored(s, wanted)
  }

  ghost function Run<M, C>(s: State<M, C>, ops: seq<Op<M, C>>): State<M, C> {
    if ops == [] then s else Step(Run(s, ops[..|ops| - 1]), ops[|ops| - 1])
  }

  // ----- four eyes everywhere

  /** A dataset that got past review was reviewed by somebody other than its author. */
  predicate ReviewedByOther<M, C>(u: Upload<M, C>) {
    u.status == Approved || u.status == Active || u.status == Failed
    ==> u.reviewer.Some? && u.reviewer.value != u.author
  }

  /** What the upload's validation found stays found: sectors are configured, and personas are there in some version. */
  ghost predicate StillKnown(lib: D.Library, ds: D.Dataset) {
    && D.OneRowPerKey(ds)
    && (forall p :: p in ds.personas ==> p.body.sector in lib.sectors)
    && (forall q, x :: q in ds.questions && x in q.sectors ==> x in lib.sectors)
    && (forall r :: r in ds.scenarios
                    ==> V.HasKey(lib.personas, r.body.personaKey) || D.InFile(ds.personas, r.body.personaKey))
  }

  ghost predicate Awaited<M, C>(lib: D.Library, u: Upload<M, C>) {
    u.status == Validated || u.status == Approved ==> StillKnown(lib, u.content)
  }

  /** Everything stored is for configured sectors. */
  ghost predicate NoneStranded<M, C>(s: State<M, C>) {
    forall x :: StoredNames(s, x) ==> D.Configured(s.library.sectors, x)
  }

  ghost predicate UploadsKept<M, C>(s: State<M, C>) {
    forall i :: 0 <= i < |s.uploads| ==> ReviewedByOther(s.uploads[i]) && Awaited(s.library, s.uploads[i])
  }

  ghost predicate Inv<M, C>(s: State<M, C>) {
    && A.MatrixInv(s.matrices) && R.BookInv(s.book) && D.SoundLibrary(s.library)
    && NoneStranded(s) && UploadsKept(s)
  }

  // ----- what each operation brings in

  /** The two states differ in content only, by what is for configured sectors. */
  ghost predicate BringsConfigured<M, C>(s: State<M, C>, t: State<M, C>) {
    && t.library.sectors == s.library.sectors
    && forall x :: StoredNames(t, x) ==> StoredNames(s, x) || D.Configured(s.library.sectors, x)
  }

  lemma PersonaEditBrings<M, C>(s: State<M, C>, op: Op<M, C>)
    requires op.DPersona? && D.GuardPasses(s.library.sectors, NamedBy(op))
    ensures BringsConfigured(s, Admitted(s, op))
  {
    var before, after := s.library.personas, Admitted(s, op).library.personas;
    forall x | D.PersonaNames(after, x) ensures D.PersonaNames(before, x) || D.Configured(s.library.sectors, x) {
      var i :| 0 <= i < |after| && after[i].content.sector == x;
      V.EditBrings(before, op.personaEdit, i);
      assert V.Brings(op.personaEdit) == Some(after[i].content) ==> x in NamedBy(op);
    }
  }

  lemma QuestionEditBrings<M, C>(s: State<M, C>, op: Op<M, C>)
    requires op.DQuestion? && D.GuardPasses(s.library.sectors, NamedBy(op))
    ensures BringsConfigured(s, Admitted(s, op))
  {
    var before, after := s.library.questions, Admitted(s, op).library.questions;
    forall x | D.QuestionNames(after, x) ensures D.QuestionNames(before, x) || D.Configured(s.library.sectors, x) {
      var k :| k in after && x in after[k].sectors;
      assert k != op.key ==> k in before && before[k] == after[k];
    }
  }

  lemma MatrixEditBrings<M, C>(s: State<M, C>, op: Op<M, C>)
    requires op.DMatrix? && D.GuardPasses(s.library.sectors, NamedBy(op))
    ensures BringsConfigured(s, Admitted(s, op))
  {
    var before, after := s.matrices, Admitted(s, op).matrices;
    forall x | MatrixNames(after, x) ensures MatrixNames(before, x) || D.Configured(s.library.sectors, x) {
      var i :| 0 <= i < |after| && x in MatrixSectors(after[i].content.body);
      A.EditBrings(before, op.matrixEdit, i);
    }
  }

  lemma RuleEditBrings<M, C>(s: State<M, C>, op: Op<M, C>)
    requires op.DRule? && D.GuardPasses(s.library.sectors, NamedBy(op))
    ensures BringsConfigured(s, Admitted(s, op))
  {
    var before, after := s.book, Admitted(s, op).book;
    forall x | RuleNames(after, x) ensures RuleNames(before, x) || D.Configured(s.library.sectors, x) {
      var i :| 0 <= i < |after| && x in after[i].body.sectors;
      R.EditBrings(before, op.ruleEdit, i);
    }
  }

  lemma SheetBrings<M>(sectors: set<string>, matrices: Matrices<M>, sheet: Option<Row<M>>, signed: SignOff, x: string)
    requires ApplySheet(sectors, matrices, sheet, signed).Some?
    requires MatrixNames(ApplySheet(sectors, matrices, sheet, signed).value, x)
    ensures MatrixNames(matrices, x) || D.Configured(sectors, x)
  {
    if sheet.Some? {
      var body := SheetBody(matrices, sheet.value);
      var after := ApplySheet(sectors, matrices, sheet, signed).value;
      var i :| 0 <= i < |after| && x in MatrixSectors(after[i].content.body);
      A.SheetBrings(matrices, sheet.value.key, body, signed.actor, signed.author, signed.reviewer, signed.ref, i);
    }
  }

  lemma {:induction false} RulesBring<C>(sectors: set<string>, book: Book<C>, rows: seq<Row<C>>, signed: SignOff,
                                         x: string)
    requires ApplyRules(sectors, book, rows, signed).Some?
             && RuleNames(ApplyRules(sectors, book, rows, signed).value, x)
    ensures RuleNames(book, x) || D.Configured(sectors, x)
  {
    if rows != [] {
      var n := |rows| - 1;
      var before := ApplyRules(sectors, book, rows[..n], signed).value;
      var after := ApplyRules(sectors, book, rows, signed).value;
      var body := RowBody(before, rows[n]);
      var i :| 0 <= i < |after| && x in after[i].body.sectors;
      R.RowBrings(before, rows[n].key, body, signed.actor, signed.author, signed.reviewer, signed.ref, i);
      if after[i].body != body {
        RulesBring(sectors, book, rows[..n], signed, x);
      }
    }
  }

  lemma ActivationBrings<M, C>(s: State<M, C>, id: nat, actor: string)
    requires D.SoundLibrary(s.library)
    ensures BringsConfigured(s, Activated(s, id, actor).0)
  {
    var t := Activated(s, id, actor).0;
    if Activated(s, id, actor).1.None? {
      var u := s.uploads[id];
      var signed := SignedOff(u, id, actor);
      forall x | StoredNames(t, x) ensures StoredNames(s, x) || D.Configured(s.library.sectors, x) {
        if D.ContentNames(t.library, x) {
          D.AppliedBrings(s.library, u.content, x);
        } else if MatrixNames(t.matrices, x) {
          SheetBrings(s.library.sectors, s.matrices, u.sheet, signed, x);
        } else {
          RulesBring(s.library.sectors, s.book, u.rules, signed, x);
        }
      }
    }
  }

  // ----- the invariant, operation by operation

  /** No sector that is in use goes, and no persona. */
  ghost predicate Grows(lib: D.Library, next: D.Library) {
    lib.sectors <= next.sectors && forall k :: V.HasKey(lib.personas, k) ==> V.HasKey(next.personas, k)
  }

  lemma AwaitedStays<M, C>(lib: D.Library, next: D.Library, uploads: seq<Upload<M, C>>)
    requires Grows(lib, next) && forall i :: 0 <= i < |uploads| ==> Awaited(lib, uploads[i])
    ensures forall i :: 0 <= i < |uploads| ==> Awaited(next, uploads[i])
  {
    forall i | 0 <= i < |uploads| ensures Awaited(next, uploads[i]) {
      assert Awaited(lib, uploads[i]);
    }
  }

  lemma AcceptedIsKnown(lib: D.Library, ds: D.Dataset)
    requires D.OneRowPerKey(ds) && D.Accepts(lib, ds)
    ensures StillKnown(lib, ds)
  {
    forall p | p in ds.personas ensures p.body.sector in lib.sectors { assert D.AcceptsPersona(lib, ds, p); }
    forall q | q in ds.questions ensures D.AcceptsTags(lib, ds, q) {}
    forall r | r in ds.scenarios ensures D.KnownPersona(lib, ds, r.body.personaKey) {
      assert D.AcceptsFlow(D.Merged(lib, ds), D.KnownPersona(lib, ds, r.body.personaKey), r.body);
    }
    forall r | r in ds.scenarios
      ensures V.HasKey(lib.personas, r.body.personaKey) || D.InFile(ds.personas, r.body.personaKey)
    {
      D.CurrentHasKey(lib, r.body.personaKey);
    }
  }

  lemma AppliedGrows(lib: D.Library, ds: D.Dataset)
    requires D.SoundLibrary(lib) && D.OneRowPerKey(ds) && D.Applied(lib, ds).Some?
    ensures Grows(lib, D.Applied(lib, ds).value) && D.SoundLibrary(D.Applied(lib, ds).value)
  {
    D.AppliesIff(lib, ds);
    D.PersonasApplyIff(lib, ds.personas);
  }

  lemma RuleKeepsInv<C>(sectors: set<string>, book: Book<C>, row: Row<C>, signed: SignOff)
    requires R.BookInv(book) && ApplyRule(sectors, book, row, signed).Some?
    ensures R.BookInv(ApplyRule(sectors, book, row, signed).value)
  {
    R.RowKeepsInv(book, row.key, RowBody(book, row), signed.actor, signed.author, signed.reviewer, signed.ref);
  }

  lemma {:induction false} RulesKeepInv<C>(sectors: set<string>, book: Book<C>, rows: seq<Row<C>>, signed: SignOff)
    requires R.BookInv(book) && ApplyRules(sectors, book, rows, signed).Some?
    ensures R.BookInv(ApplyRules(sectors, book, rows, signed).value)
  {
    if rows != [] {
      var n := |rows| - 1;
      RulesKeepInv(sectors, book, rows[..n], signed);
      RuleKeepsInv(sectors, ApplyRules(sectors, book, rows[..n], signed).value, rows[n], signed);
    }
  }

  lemma ActivationKeepsInv<M, C>(s: State<M, C>, id: nat, actor: string)
    requires Inv(s)
    ensures Inv(Activated(s, id, actor).0)
  {
    ActivationBrings(s, id, actor);
    if Activated(s, id, actor).1.None? {
      var u := s.uploads[id];
      var signed := SignedOff(u, id, actor);
      if u.sheet.Some? {
        var body := SheetBody(s.matrices, u.sheet.value);
        A.SheetKeepsInv(s.matrices, u.sheet.value.key, body, signed.actor, signed.author, signed.reviewer, signed.ref);
      }
      RulesKeepInv(s.library.sectors, s.book, u.rules, signed);
      assert Awaited(s.library, u);
      AppliedGrows(s.library, u.content);
      AwaitedStays(s.library, D.Applied(s.library, u.content).value, s.uploads);
    }
  }

  /** Another library, in order, with no sector or persona less and nothing for a sector that is not configured. */
  lemma LibraryStep<M, C>(s: State<M, C>, next: D.Library)
    requires Inv(s) && D.SoundLibrary(next) && Grows(s.library, next)
    requires BringsConfigured(s, s.(library := next))
    ensures Inv(s.(library := next))
  {
    AwaitedStays(s.library, next, s.uploads);
  }

  lemma PersonaEditKeepsInv<M, C>(s: State<M, C>, op: Op<M, C>)
    requires Inv(s) && op.DPersona? && D.GuardPasses(s.library.sectors, NamedBy(op))
    ensures Inv(Admitted(s, op))
  {
    var edit := op.personaEdit;
    V.EditKeepsSound(s.library.personas, edit);
    forall k | V.HasKey(s.library.personas, k) ensures V.HasKey(V.After(s.library.personas, edit), k) {
      V.KeysStay(s.library.personas, edit, k);
    }
    PersonaEditBrings(s, op);
    LibraryStep(s, Admitted(s, op).library);
  }

  lemma UploadKeepsInv<M, C>(s: State<M, C>, author: string, parsed: bool, content: D.Dataset,
                             sheet: Option<Row<M>>, rules: seq<Row<C>>)
    requires Inv(s)
    ensures Inv(Uploaded(s, author, parsed, content, sheet, rules))
  {
    if D.OneRowPerKey(content) && D.Accepts(s.library, content) {
      AcceptedIsKnown(s.library, content);
    }
  }

  /** A sector goes only when nothing stored and nothing awaited names it. */
  lemma ResectoredKeepsInv<M, C>(s: State<M, C>, wanted: set<string>)
    requires Inv(s)
    ensures Inv(Resectored(s, wanted))
  {
    var t := Resectored(s, wanted);
    if t != s {
      forall x | StoredNames(t, x) ensures D.Configured(wanted, x) {
        assert StoredNames(s, x) && IsNamed(s, x);
        assert x in s.library.sectors ==> x in wanted || x in s.library.sectors - wanted;
      }
      forall i | 0 <= i < |s.uploads| ensures Awaited(t.library, s.uploads[i]) {
        assert Awaited(s.library, s.uploads[i]);
        StillKnownWithout(s, wanted, i);
      }
    }
  }

  lemma StillKnownWithout<M, C>(s: State<M, C>, wanted: set<string>, i: nat)
    requires i < |s.uploads| && Awaited(s.library, s.uploads[i])
    requires forall x :: x in s.library.sectors - wanted ==> !IsNamed(s, x)
    ensures Awaited(s.library.(sectors := wanted), s.uploads[i])
  {
    var u := s.uploads[i];
    if u.status == Validated || u.status == Approved {
      forall x | UploadNames(u, x) && x in s.library.sectors ensures x in wanted {
        assert AwaitedNames(s.uploads, x);
        assert x !in wanted ==> x in s.library.sectors - wanted;
      }
      forall p | p in u.content.personas ensures p.body.sector in wanted {
        assert UploadNames(u, p.body.sector);
      }
      forall q, x | q in u.content.questions && x in q.sectors ensures x in wanted {
        assert UploadNames(u, x);
      }
    }
  }

  lemma StepKeepsInv<M, C>(s: State<M, C>, op: Op<M, C>)
    requires Inv(s)
    ensures Inv(Step(s, op))
  {
    if D.GuardPasses(s.library.sectors, NamedBy(op)) {
      match op
      case DUpload(author, parsed, content, sheet, rules) => UploadKeepsInv(s, author, parsed, content, sheet, rules);
      case DApprove(id, reviewer) =>
        if id < |s.uploads| { assert Awaited(s.library, s.uploads[id]); }
      case DActivate(id, actor) => ActivationKeepsInv(s, id, actor);
      case DMatrix(edit) =>
        A.EditKeepsInv(s.matrices, edit);
        MatrixEditBrings(s, op);
      case DRule(edit) =>
        R.EditKeepsInv(s.book, edit);
        RuleEditBrings(s, op);
      case DPersona(_) => PersonaEditKeepsInv(s, op);
      case DScenario(edit) =>
        V.EditKeepsSound(s.library.scenarios, edit);
        LibraryStep(s, s.library.(scenarios := V.After(s.library.scenarios, edit)));
      case DQuestion(_, _) =>
        QuestionEditBrings(s, op);
        LibraryStep(s, Admitted(s, op).library);
      case DSectors(wanted) => ResectoredKeepsInv(s, wanted);
    }
  }

  /** Nothing stored yet, and some sectors configured. */
  function Empty<M, C>(sectors: set<string>): State<M, C> {
    State([], D.Library(sectors, [], map[], []), [], [])
  }

  /**
   * Whatever uploads, reviews, activations, direct edits and changes of the sectors interleave, nothing is active that
   * its maker approved.
   */
  lemma {:induction false} FourEyesEverywhere<M, C>(sectors: set<string>, ops: seq<Op<M, C>>)
    ensures Inv(Run(Empty(sectors), ops))
  {
    if ops != [] {
      FourEyesEverywhere(sectors, ops[..|ops| - 1]);
      StepKeepsInv(Run(Empty(sectors), ops[..|ops| - 1]), ops[|ops| - 1]);
    }
  }

  /** And whatever is stored or may still be activated names configured sectors only, although sectors come and go. */
  lemma NoSectorIsStranded<M, C>(sectors: set<string>, ops: seq<Op<M, C>>, x: string)
    requires IsNamed(Run(Empty<M, C>(sectors), ops), x)
    ensures D.Configured(Run(Empty<M, C>(sectors), ops).library.sectors, x)
  {
    FourEyesEverywhere<M, C>(sectors, ops);
    var s := Run(Empty<M, C>(sectors), ops);
    if AwaitedNames(s.uploads, x) {
      var i :| 0 <= i < |s.uploads| && UploadNames(s.uploads[i], x);
      assert Awaited(s.library, s.uploads[i]);
    }
  }

  // ----- a dataset is applied at most once

  predicate IsFinal(status: Status) {
    status == Rejected || status == Active || status == Failed
  }

  /** The dataset that was `u` is now `v`. */
  predicate Decided<M(==), C(==)>(u: Upload<M, C>, v: Upload<M, C>) {
    && (IsFinal(u.status) ==> v == u)
    && (u.status == Approved
       ==> v.(status := Approved) == u && (v.status == Approved || v.status == Active || v.status == Failed))
  }

  lemma StepDecides<M, C>(s: State<M, C>, op: Op<M, C>, i: nat)
    requires i < |s.uploads|
    ensures i < |Step(s, op).uploads| && Decided(s.uploads[i], Step(s, op).uploads[i])
  {}

  /**
   * Rejected, activated and failed datasets stay so; an approved one keeps its content, its author and its reviewer.
   */
  lemma {:induction false} DecidedForGood<M, C>(s: State<M, C>, ops: seq<Op<M, C>>, i: nat)
    requires i < |s.uploads|
    ensures i < |Run(s, ops).uploads| && Decided(s.uploads[i], Run(s, ops).uploads[i])
  {
    if ops != [] {
      DecidedForGood(s, ops[..|ops| - 1], i);
      StepDecides(Run(s, ops[..|ops| - 1]), ops[|ops| - 1], i);
    }
  }

  // ----- when activation goes through

  /** Only rules with this key may differ, and only such rules are new. */
  ghost predicate OnlyTouches<C>(s: R.Book<C>, t: R.Book<C>, key: string) {
    && |s| <= |t|
    && (forall i :: 0 <= i < |s| ==> t[i].key == s[i].key && (s[i].key != key ==> t[i] == s[i]))
    && (forall i :: |s| <= i < |t| ==> t[i].key == key)
  }

  lemma TouchesCompose<C>(s: R.Book<C>, t: R.Book<C>, u: R.Book<C>, key: string)
    requires OnlyTouches(s, t, key) && OnlyTouches(t, u, key)
    ensures OnlyTouches(s, u, key)
  {}

  lemma ActivateTouches<C>(s: R.Book<C>, id: nat)
    requires R.BookInv(s) && R.Activate(s, id).Ok?
    ensures OnlyTouches(s, R.Activate(s, id).value, s[id].key)
  {
    var previous := R.Previous(s, s[id].group, id);
    if previous.Some? {
      R.SameGroupSameKey(s, previous.value, id);
    }
  }

  /** The rule that a dataset's row edits: an open one or a new one, of the row's own key. */
  lemma FirstEditTouches<C>(s: R.Book<C>, key: string, body: C, actor: string)
    requires R.BookInv(s) && !R.OnlyRetired(s, key)
    ensures var open := R.NewestOpen(s, key);
            var current := if open.Some? then open else R.ActiveWithKey(s, key);
            var first :=
              if current.Some? then R.Update(s, current.value, body, actor) else R.Create(s, key, body, actor);
            var target := if open.Some? then open.value else |s|;
            && first.Ok? && R.BookInv(first.value) && OnlyTouches(s, first.value, key)
            && target < |first.value| && first.value[target].key == key && first.value[target].status == R.Draft
  {
    R.RowEdits(s, key, body, actor);
    var open := R.NewestOpen(s, key);
    var current := if open.Some? then open else R.ActiveWithKey(s, key);
    var edit := if current.Some? then R.RUpdate(current.value, body, actor) else R.RCreate(key, body, actor);
    R.ElementaryKeepsInv(s, edit);
  }

  lemma SignOffTouches<C>(s: R.Book<C>, target: nat, author: string, reviewer: string, ref: string)
    requires R.BookInv(s) && target < |s| && s[target].status == R.Draft
    ensures var reassigned := s[target := s[target].(createdBy := author)];
            var approved := R.Approve(reassigned, target, reviewer, ref);
            approved.Ok? && R.Activate(approved.value, target).Ok? ==>
              var t := R.Activate(approved.value, target).value;
              OnlyTouches(s, t, s[target].key) && t[target].key == s[target].key && t[target].status == R.Active
  {
    R.ReassignKeepsInv(s, target, author);
    var reassigned := s[target := s[target].(createdBy := author)];
    var approved := R.Approve(reassigned, target, reviewer, ref);
    if approved.Ok? && R.Activate(approved.value, target).Ok? {
      var approve: R.RuleEdit<C> := R.RApprove(target, reviewer, ref);
      R.ElementaryKeepsInv(reassigned, approve);
      ActivateTouches(approved.value, target);
      TouchesCompose(s, approved.value, R.Activate(approved.value, target).value, s[target].key);
    }
  }

  ghost predicate HasActive<C>(s: R.Book<C>, key: string) {
    exists i :: 0 <= i < |s| && s[i].key == key && s[i].status == R.Active
  }

  lemma RowTouches<C>(s: R.Book<C>, key: string, body: C, actor: string, author: string, reviewer: string, ref: string)
    requires R.BookInv(s) && R.ApplyRow(s, key, body, actor, author, reviewer, ref).Ok?
    ensures var t := R.ApplyRow(s, key, body, actor, author, reviewer, ref).value;
            OnlyTouches(s, t, key) && HasActive(t, key)
  {
    R.RowAppliesIff(s, key, body, actor, author, reviewer, ref);
    FirstEditTouches(s, key, body, actor);
    var open := R.NewestOpen(s, key);
    var current := if open.Some? then open else R.ActiveWithKey(s, key);
    var edited :=
      (if current.Some? then R.Update(s, current.value, body, actor) else R.Create(s, key, body, actor)).value;
    var target := if open.Some? then open.value else |s|;
    SignOffTouches(edited, target, author, reviewer, ref);
    TouchesCompose(s, edited, R.ApplyRow(s, key, body, actor, author, reviewer, ref).value, key);
  }

  /** Applying a rule cannot make another key's rules all retired, nor leave its own so. */
  lemma RowKeepsOthers<C>(s: R.Book<C>, t: R.Book<C>, key: string, other: string)
    requires OnlyTouches(s, t, key) && HasActive(t, key)
    ensures R.OnlyRetired(t, other) <==> R.OnlyRetired(s, other) && other != key
  {
    if other != key {
      assert forall i :: 0 <= i < |s| && s[i].key == other ==> t[i] == s[i];
      assert R.HasKey(s, other) <==> R.HasKey(t, other);
    }
  }

  /** The row's own sectors pass the guard, because they are those of a stored rule. */
  lemma RowIsGuarded<C>(sectors: set<string>, book: Book<C>, row: Row<C>)
    requires forall x :: RuleNames(book, x) ==> D.Configured(sectors, x)
    ensures D.GuardPasses(sectors, RowBody(book, row).sectors)
  {
    forall x | x in RowBody(book, row).sectors ensures D.Configured(sectors, x) {
      assert RuleNames(book, x);
    }
  }

  /** A reviewed row is applied exactly when its key's rules are not all retired. */
  lemma RuleAppliesIff<C>(sectors: set<string>, book: Book<C>, row: Row<C>, signed: SignOff)
    requires R.BookInv(book) && signed.author != signed.reviewer && !A.Blank(signed.ref)
    requires forall x :: RuleNames(book, x) ==> D.Configured(sectors, x)
    ensures ApplyRule(sectors, book, row, signed).Some? <==> !R.OnlyRetired(book, row.key)
    ensures ApplyRule(sectors, book, row, signed).Some?
            ==> forall key :: R.OnlyRetired(ApplyRule(sectors, book, row, signed).value, key)
                              <==> R.OnlyRetired(book, key) && key != row.key
  {
    var body := RowBody(book, row);
    RowIsGuarded(sectors, book, row);
    R.RowAppliesIff(book, row.key, body, signed.actor, signed.author, signed.reviewer, signed.ref);
    if ApplyRule(sectors, book, row, signed).Some? {
      RowTouches(book, row.key, body, signed.actor, signed.author, signed.reviewer, signed.ref);
      var t := ApplyRule(sectors, book, row, signed).value;
      forall key ensures R.OnlyRetired(t, key) <==> R.OnlyRetired(book, key) && key != row.key {
        RowKeepsOthers(book, t, row.key, key);
      }
    }
  }

  lemma RulesStayConfigured<C>(sectors: set<string>, book: Book<C>, rows: seq<Row<C>>, signed: SignOff)
    requires ApplyRules(sectors, book, rows, signed).Some?
    requires forall x :: RuleNames(book, x) ==> D.Configured(sectors, x)
    ensures forall x :: RuleNames(ApplyRules(sectors, book, rows, signed).value, x) ==> D.Configured(sectors, x)
  {
    forall x | RuleNames(ApplyRules(sectors, book, rows, signed).value, x) ensures D.Configured(sectors, x) {
      RulesBring(sectors, book, rows, signed, x);
    }
  }

  /**
   * The rules of a reviewed dataset can all be applied exactly when none names a key whose rules are all retired: the
   * guard on sectors never refuses one, because a row keeps the sectors of a stored rule.
   */
  lemma {:induction false} RulesApplyIff<C>(sectors: set<string>, book: Book<C>, rows: seq<Row<C>>, signed: SignOff)
    requires R.BookInv(book) && signed.author != signed.reviewer && !A.Blank(signed.ref)
    requires forall x :: RuleNames(book, x) ==> D.Configured(sectors, x)
    ensures ApplyRules(sectors, book, rows, signed).Some?
            <==> forall row :: row in rows ==> !R.OnlyRetired(book, row.key)
    ensures ApplyRules(sectors, book, rows, signed).Some?
            ==> forall key :: R.OnlyRetired(ApplyRules(sectors, book, rows, signed).value, key)
                              <==> R.OnlyRetired(book, key) && forall row :: row in rows ==> row.key != key
  {
    if rows != [] {
      var before, row := rows[..|rows| - 1], rows[|rows| - 1];
      assert rows == before + [row];
      RulesApplyIff(sectors, book, before, signed);
      if ApplyRules(sectors, book, before, signed).Some? {
        RulesKeepInv(sectors, book, before, signed);
        RulesStayConfigured(sectors, book, before, signed);
        RuleAppliesIff(sectors, ApplyRules(sectors, book, before, signed).value, row, signed);
      }
    }
  }

  lemma ReferenceIsNotBlank(id: nat)
    ensures !A.Blank(Reference(id))
  {
    assert Reference(id)[0] == 'd';
  }

  lemma GuardsPass(lib: D.Library, ds: D.Dataset)
    requires StillKnown(lib, ds)
    ensures forall r :: r in ds.personas ==> D.GuardPasses(lib.sectors, [r.body.sector])
    ensures forall r :: r in ds.questions ==> D.GuardPasses(lib.sectors, r.sectors)
    ensures D.PersonasKept(lib, ds) <==> forall r :: r in ds.scenarios ==> D.ScenarioFits(lib, ds, r)
  {}

  /** Each scenario can be activated on the file's questions and the stored ones, kept triggers included. */
  ghost predicate ScenariosResolve(lib: D.Library, ds: D.Dataset) {
    forall r :: r in ds.scenarios
      ==> D.AcceptsFlow(D.Patched(lib, ds), D.KnownPersona(lib, ds, r.body.personaKey), r.body)
  }

  lemma ContentAppliesIff(lib: D.Library, ds: D.Dataset)
    requires D.SoundLibrary(lib) && StillKnown(lib, ds)
    ensures D.Applied(lib, ds).Some?
            <==> D.NoDraftInTheWay(lib, ds) && D.PersonasKept(lib, ds) && ScenariosResolve(lib, ds)
  {
    D.AppliesIff(lib, ds);
    GuardsPass(lib, ds);
  }

  /** The sheet's matrix passes the guard, because it keeps the sector of a stored one. */
  lemma SheetIsGuarded<M, C>(s: State<M, C>, sheet: Row<M>)
    requires NoneStranded(s)
    ensures D.GuardPasses(s.library.sectors, MatrixSectors(SheetBody(s.matrices, sheet)))
  {
    forall x | x in MatrixSectors(SheetBody(s.matrices, sheet)) ensures D.Configured(s.library.sectors, x) {
      assert MatrixNames(s.matrices, x) && StoredNames(s, x);
    }
  }

  lemma SheetGoesThroughIff<M, C>(s: State<M, C>, sheet: Option<Row<M>>, signed: SignOff)
    requires NoneStranded(s) && V.Sound(s.matrices) && signed.author != signed.reviewer && !A.Blank(signed.ref)
    ensures ApplySheet(s.library.sectors, s.matrices, sheet, signed).Some?
            <==> (sheet.Some? ==> !V.DraftInTheWay(s.matrices, sheet.value.key))
  {
    if sheet.Some? {
      SheetIsGuarded(s, sheet.value);
      var body := SheetBody(s.matrices, sheet.value);
      A.SheetAppliesIff(s.matrices, sheet.value.key, body, signed.actor, signed.author, signed.reviewer, signed.ref);
    }
  }

  lemma RulesGoThroughIff<M, C>(s: State<M, C>, rows: seq<Row<C>>, signed: SignOff)
    requires NoneStranded(s) && R.BookInv(s.book) && signed.author != signed.reviewer && !A.Blank(signed.ref)
    ensures ApplyRules(s.library.sectors, s.book, rows, signed).Some?
            <==> forall row :: row in rows ==> !R.OnlyRetired(s.book, row.key)
  {
    forall x | RuleNames(s.book, x) ensures D.Configured(s.library.sectors, x) {
      assert StoredNames(s, x);
    }
    RulesApplyIff(s.library.sectors, s.book, rows, signed);
  }

  /**
   * In any reachable state an approved dataset activates exactly when no draft stands in the way of its personas, its
   * scenarios or its matrix, its stored scenarios are for the same personas, its scenarios can be activated on the
   * file's questions and the stored ones, and none of its rules has a key whose rules are all retired: never is it a
   * matter of who activates it, nor of sectors, however they came and went since the upload.
   */
  lemma ActivationGoesThroughIff<M, C>(s: State<M, C>, id: nat, actor: string)
    requires Inv(s) && id < |s.uploads| && s.uploads[id].status == Approved
    ensures var u := s.uploads[id];
            Activated(s, id, actor).1.None?
            <==> && D.NoDraftInTheWay(s.library, u.content) && D.PersonasKept(s.library, u.content)
                 && ScenariosResolve(s.library, u.content)
                 && (u.sheet.Some? ==> !V.DraftInTheWay(s.matrices, u.sheet.value.key))
                 && forall row :: row in u.rules ==> !R.OnlyRetired(s.book, row.key)
  {
    var u := s.uploads[id];
    ReferenceIsNotBlank(id);
    assert ReviewedByOther(u) && Awaited(s.library, u);
    ContentAppliesIff(s.library, u.content);
    SheetGoesThroughIff(s, u.sheet, SignedOff(u, id, actor));
    RulesGoThroughIff(s, u.rules, SignedOff(u, id, actor));
  }

  // ----- the collections as the service changes them

  class Desk<M, C> {
    var uploads: seq<Upload<M, C>>
    var library: D.Library
    var matrices: Matrices<M>
    var book: Book<C>

    constructor (sectors: set<string>)
      ensures Contents() == Empty(sectors)
    {
      uploads, library, matrices, book := [], D.Library(sectors, [], map[], []), [], [];
    }

    function Contents(): State<M, C>
      reads this
    {
      State(uploads, library, matrices, book)
    }

    /** The parser has refused a file that has a key twice. */
    method UploadDataset(author: string, parsed: bool, content: D.Dataset, sheet: Option<Row<M>>,
                         rules: seq<Row<C>>)
      requires parsed ==> D.OneRowPerKey(content)
      modifies `uploads
      ensures Contents() == Uploaded(old(Contents()), author, parsed, content, sheet, rules)
    {
      var status := Rejected;
      if parsed {
        var errors := D.CrossValidate(library, content);
        if errors == [] { status := Validated; }
      }
      uploads := uploads + [Upload(author, None, status, content, sheet, rules)];
    }

    method ApproveDataset(id: nat, reviewer: string) returns (refusal: Option<Why>)
      modifies `uploads
      ensures match Approve(old(Contents()), id, reviewer)
              case Ok(s) => refusal.None? && Contents() == s
              case Err(e) => refusal == Some(e) && Contents() == old(Contents())
    {
      if id >= |uploads| { return Some(NotFound); }
      var doc := uploads[id];
      if doc.status != Validated { return Some(NotValidated); }
      if doc.author == reviewer { return Some(SelfApproval); }
      doc := doc.(status := Approved);
      doc := doc.(reviewer := Some(reviewer));
      uploads := uploads[id := doc];
      refusal := None;
    }

    /** The content transaction; nothing of it is kept when any part of it is refused. */
    method ApplyContent(u: Upload<M, C>, id: nat, actor: string) returns (ok: bool)
      requires u.reviewer.Some? && id < |uploads| && uploads[id] == u
      modifies `library, `matrices, `book
      ensures ok <==> Applied(old(Contents()), id, actor).Some?
      ensures ok
              ==> Contents().(uploads := uploads[id := u.(status := Active)])
                  == Applied(old(Contents()), id, actor).value
      ensures !ok ==> library == old(library) && matrices == old(matrices) && book == old(book)
    {
      var signed := SignedOff(u, id, actor);
      var installed := D.ApplyContent(library, u.content);
      if installed.None? { return false; }
      var sheet := ApplySheet(library.sectors, matrices, u.sheet, signed);
      if sheet.None? { return false; }
      var rules := InstallRules(library.sectors, book, u.rules, signed);
      if rules.None? { return false; }
      library, matrices, book := installed.value, sheet.value, rules.value;
      ok := true;
    }

    method ActivateDataset(id: nat, actor: string) returns (refusal: Option<Why>)
      modifies this
      ensures (Contents(), refusal) == Activated(old(Contents()), id, actor)
    {
      if id >= |uploads| { return Some(NotFound); }
      var doc := uploads[id];
      if doc.status != Approved || doc.reviewer.None? { return Some(NotApproved); }
      var ok := ApplyContent(doc, id, actor);
      uploads := uploads[id := doc.(status := if ok then Active else Failed)];
      refusal := if ok then None else Some(ContentRefused);
    }

    /** The tenant's settings: a sector that any content or awaited dataset still names cannot be taken out. */
    method ChangeSectors(wanted: set<string>) returns (ok: bool)
      modifies `library
      ensures Contents() == Resectored(old(Contents()), wanted)
      ensures ok <==> forall x :: x in old(library).sectors && IsNamed(old(Contents()), x) ==> x in wanted
    {
      var removed := library.sectors - wanted;
      if exists x :: x in removed && IsNamed(Contents(), x) { return false; }
      library := library.(sectors := wanted);
      ok := true;
    }
  }

  method InstallRules<C>(sectors: set<string>, book: Book<C>, rows: seq<Row<C>>, signed: SignOff)
    returns (rules: Option<Book<C>>)
    ensures rules == ApplyRules(sectors, book, rows, signed)
  {
    var done := book;
    for i := 0 to |rows|
      invariant ApplyRules(sectors, book, rows[..i], signed) == Some(done)
    {
      assert rows[..i + 1][..i] == rows[..i];
      var turn := ApplyRule(sectors, done, rows[i], signed);
      if turn.None? {
        RefusalStays(sectors, book, rows, i + 1, signed);
        return None;
      }
      done := turn.value;
    }
    assert rows[..|rows|] == rows;
    rules := Some(done);
  }

  /** Once a rule is refused, so is every longer list. */
  lemma {:induction false} RefusalStays<C>(sectors: set<string>, book: Book<C>, rows: seq<Row<C>>, m: nat,
                                           signed: SignOff)
    requires m <= |rows| && ApplyRules(sectors, book, rows[..m], signed).None?
    ensures ApplyRules(sectors, book, rows, signed).None?
  {
    if m == |rows| {
      assert rows[..m] == rows;
    } else {
      assert rows[..|rows| - 1][..m] == rows[..m];
      RefusalStays(sectors, book, rows[..|rows| - 1], m, signed);
    }
  }
}
