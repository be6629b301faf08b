/**
 * What an applied dataset leaves behind (src/modules/datasets/service.ts:245-303), row by row of the file: the content
 * that stands under each key afterwards, and that nothing else is touched.
 */
module ContentLaws {
  import opened Prelude
  import opened VersionLaws
  import A = Approval
  import D = Datasets
  import L = DatasetLifecycle
  import R = RuleLifecycle
  import Reachability
  import V = Versions

  // ----- personas, questions and scenarios

  function PersonaRows(rows: seq<D.PersonaRow>): (r: seq<Row<D.PersonaBody>>) {
    seq(|rows|, i requires 0 <= i < |rows| => Row(rows[i].key, rows[i].body))
  }

  lemma PersonaRowsUnfold(rows: seq<D.PersonaRow>)
    requires rows != []
    ensures var n := |rows| - 1;
            && PersonaRows(rows[..n]) == PersonaRows(rows)[..n]
            && PersonaRows(rows) == PersonaRows(rows[..n]) + [Row(rows[n].key, rows[n].body)]
  {}

  lemma PersonaPublished(lib: D.Library, rows: seq<D.PersonaRow>)
    requires rows != [] && D.ApplyPersonas(lib, rows).Some?
    ensures var before, row := D.ApplyPersonas(lib, rows[..|rows| - 1]), rows[|rows| - 1];
            && before.Some?
            && V.Publish(before.value, row.key, row.body, true) == Ok(D.ApplyPersonas(lib, rows).value)
  {}

  lemma {:induction false} PersonasStand(lib: D.Library, rows: seq<D.PersonaRow>)
    requires V.Sound(lib.personas) && D.ApplyPersonas(lib, rows).Some? && OncePerKey(PersonaRows(rows))
    ensures var t := D.ApplyPersonas(lib, rows).value; V.Sound(t) && AllStand(lib.personas, t, PersonaRows(rows))
  {
    if rows == [] {
      NoneStand(lib.personas);
    } else {
      var n, row := |rows| - 1, rows[|rows| - 1];
      PersonaPublished(lib, rows);
      PrefixOnce(PersonaRows(rows));
      PersonaRowsUnfold(rows);
      PersonasStand(lib, rows[..n]);
      PublishStands(D.ApplyPersonas(lib, rows[..n]).value, row.key, row.body, true);
      OneMoreStands(lib.personas, D.ApplyPersonas(lib, rows[..n]).value, D.ApplyPersonas(lib, rows).value,
                    PersonaRows(rows[..n]), Row(row.key, row.body));
    }
  }

  lemma PrefixOnce<C>(rows: seq<Row<C>>)
    requires rows != [] && OncePerKey(rows)
    ensures OncePerKey(rows[..|rows| - 1]) && !HasRow(rows[..|rows| - 1], rows[|rows| - 1].key)
  {}

  function ScenarioRows(rows: seq<D.ScenarioRow>): (r: seq<Row<D.ScenarioBody>>) {
    seq(|rows|, i requires 0 <= i < |rows| => Row(rows[i].key, rows[i].body))
  }

  lemma ScenarioRowsUnfold(rows: seq<D.ScenarioRow>)
    requires rows != []
    ensures var n := |rows| - 1;
            && ScenarioRows(rows[..n]) == ScenarioRows(rows)[..n]
            && ScenarioRows(rows) == ScenarioRows(rows[..n]) + [Row(rows[n].key, rows[n].body)]
  {}

  lemma ScenarioPublished(lib: D.Library, rows: seq<D.ScenarioRow>)
    requires rows != [] && D.ApplyScenarios(lib, rows).Some?
    ensures var before, row := D.ApplyScenarios(lib, rows[..|rows| - 1]), rows[|rows| - 1];
            && before.Some?
            && V.Publish(before.value, row.key, row.body, D.Activates(lib, row.body))
               == Ok(D.ApplyScenarios(lib, rows).value)
  {}

  lemma {:induction false} ScenariosStand(lib: D.Library, rows: seq<D.ScenarioRow>)
    requires V.Sound(lib.scenarios) && D.ApplyScenarios(lib, rows).Some? && OncePerKey(ScenarioRows(rows))
    ensures var t := D.ApplyScenarios(lib, rows).value; V.Sound(t) && AllStand(lib.scenarios, t, ScenarioRows(rows))
  {
    if rows == [] {
      NoneStand(lib.scenarios);
    } else {
      var n, row := |rows| - 1, rows[|rows| - 1];
      ScenarioPublished(lib, rows);
      PrefixOnce(ScenarioRows(rows));
      ScenarioRowsUnfold(rows);
      ScenariosStand(lib, rows[..n]);
      PublishStands(D.ApplyScenarios(lib, rows[..n]).value, row.key, row.body, D.Activates(lib, row.body));
      OneMoreStands(lib.scenarios, D.ApplyScenarios(lib, rows[..n]).value, D.ApplyScenarios(lib, rows).value,
                    ScenarioRows(rows[..n]), Row(row.key, row.body));
    }
  }

  /** The question is active as the row has it; a row without a trigger leaves the stored one. */
  ghost predicate Asked(before: map<string, D.Stored>, after: map<string, D.Stored>, r: D.Row) {
    && r.key in after
    && after[r.key].active && after[r.key].factKey == r.factKey && after[r.key].sectors == r.sectors
    && (r.trigger.Some? ==> after[r.key].followUps == r.trigger.value)
    && (r.trigger.None? && r.key in before ==> after[r.key].followUps == before[r.key].followUps)
    && (r.trigger.None? && r.key !in before ==> after[r.key].followUps == [])
  }

  /** Every row of the file stands as it was given, and whatever the file does not name is as it was. */
  ghost predicate Installed(lib: D.Library, ds: D.Dataset, t: D.Library) {
    && t.sectors == lib.sectors
    && AllStand(lib.personas, t.personas, PersonaRows(ds.personas))
    && AllStand(lib.scenarios, t.scenarios, ScenarioRows(ds.scenarios))
    && (forall r :: r in ds.questions ==> Asked(lib.questions, t.questions, r))
    && (forall k :: (forall r :: r in ds.questions ==> r.key != k) ==>
          && (k in t.questions <==> k in lib.questions)
          && (k in lib.questions ==> t.questions[k] == lib.questions[k]))
  }

  lemma QuestionsStand(lib: D.Library, ds: D.Dataset)
    requires D.QuestionsOnce(ds.questions) && D.ApplyQuestions(lib, ds.questions).Some?
    ensures var t := D.ApplyQuestions(lib, ds.questions).value;
            && (forall r :: r in ds.questions ==> Asked(lib.questions, t, r))
            && (forall k :: (forall r :: r in ds.questions ==> r.key != k) ==>
                  (k in t <==> k in lib.questions) && (k in lib.questions ==> t[k] == lib.questions[k]))
  {
    D.QuestionsApplyIff(lib, ds.questions);
    var t := D.ApplyQuestions(lib, ds.questions).value;
    forall r | r in ds.questions ensures Asked(lib.questions, t, r) {
      D.RowsHere(lib.questions, ds.questions, r);
    }
    forall k | forall r :: r in ds.questions ==> r.key != k
      ensures (k in t <==> k in lib.questions) && (k in lib.questions ==> t[k] == lib.questions[k])
    {
      D.RowsElsewhere(lib.questions, ds.questions, k);
    }
  }

  lemma AppliedInstalls(lib: D.Library, ds: D.Dataset)
    requires D.SoundLibrary(lib) && D.OneRowPerKey(ds) && D.Applied(lib, ds).Some?
    ensures Installed(lib, ds, D.Applied(lib, ds).value)
  {
    var ready := D.Prepared(lib, ds).value;
    PersonasStand(lib, ds.personas);
    QuestionsStand(lib, ds);
    ScenariosStand(ready, ds.scenarios);
  }

  // ----- the matrix of the scoring sheet

  /** This is the sector of the matrix that the key stood for, if it stood for any. */
  ghost predicate MatrixSector<M>(s: L.Matrices<M>, key: string, sector: Option<string>) {
    && (forall i: nat :: FirstCurrent(s, key, i) ==> sector == s[i].content.body.sector)
    && ((forall i: nat :: !FirstCurrent(s, key, i)) ==> sector == None)
  }

  /** The sheet's text, made by the dataset's author and approved by its reviewer. */
  function SheetContent<M>(sector: Option<string>, sheet: L.Row<M>, signed: L.SignOff): A.Authored<L.MatrixBody<M>> {
    A.Authored(L.MatrixBody(sector, sheet.body), signed.author, Some(A.Approval(signed.reviewer, signed.ref)))
  }

  /** The sheet's matrix stands under its key, for the sector it was for, and no other key is touched. */
  ghost predicate SheetStands<M>(s: L.Matrices<M>, t: L.Matrices<M>, sheet: L.Row<M>, signed: L.SignOff) {
    && signed.reviewer != signed.author
    && (exists x :: MatrixSector(s, sheet.key, x) && Stands(s, t, sheet.key, SheetContent(x, sheet, signed)))
    && forall k :: k != sheet.key ==> Untouched(s, t, k)
  }

  lemma SheetPublishes<C>(s: A.Matrices<C>, key: string, body: C, actor: string, author: string, reviewer: string,
                          ref: string)
    requires V.Sound(s) && A.ApplySheet(s, key, body, actor, author, reviewer, ref).Ok?
    ensures var content := A.Authored(body, author, Some(A.Approval(reviewer, ref)));
            && author != reviewer
            && V.Publish(s, key, content, true) == Ok(A.ApplySheet(s, key, body, actor, author, reviewer, ref).value)
  {
    V.CurrentIsActive(s, key);
    V.CurrentWithKeyFails(s, key);
    var content := A.Authored(body, author, Some(A.Approval(reviewer, ref)));
    var current := V.CurrentWithKey(s, key);
    var edited :=
      (if current.Some? then A.UpdateMatrix(s, current.value, None, body, actor)
       else A.CreateMatrix(s, key, body, actor)).value;
    var approved := edited[|s| := edited[|s|].(content := content)];
    var direct :=
      (if current.Some? then V.Revise(s, current.value, Some(key), content) else V.CreateDraft(s, key, content)).value;
    assert direct == approved;
    var reassigned := edited[|s| := edited[|s|].(content := A.Authored(body, author, None))];
    assert reassigned[|s| := reassigned[|s|].(content := content)] == approved;
    assert A.ApplySheet(s, key, body, actor, author, reviewer, ref) == A.ActivateMatrix(approved, |s|);
  }

  lemma SheetInstalls<M>(sectors: set<string>, s: L.Matrices<M>, sheet: L.Row<M>, signed: L.SignOff)
    requires V.Sound(s) && L.ApplySheet(sectors, s, Some(sheet), signed).Some?
    ensures SheetStands(s, L.ApplySheet(sectors, s, Some(sheet), signed).value, sheet, signed)
  {
    var body := L.SheetBody(s, sheet);
    SheetPublishes(s, sheet.key, body, signed.actor, signed.author, signed.reviewer, signed.ref);
    var content := A.Authored(body, signed.author, Some(A.Approval(signed.reviewer, signed.ref)));
    PublishStands(s, sheet.key, content, true);
    forall i: nat ensures FirstCurrent(s, sheet.key, i) <==> V.CurrentWithKey(s, sheet.key) == Some(i) {
      CurrentIsFirst(s, sheet.key, i);
    }
    assert MatrixSector(s, sheet.key, body.sector) && content == SheetContent(body.sector, sheet, signed);
  }

  // ----- the rules of the scoring sheet

  predicate OpenAt<C>(s: R.Book<C>, key: string, i: nat) {
    i < |s| && s[i].key == key && (s[i].status == R.Draft || s[i].status == R.Approved)
  }

  predicate ActiveAt<C>(s: R.Book<C>, key: string, i: nat) {
    i < |s| && s[i].key == key && s[i].status == R.Active
  }

  /** These are the sectors of the rule that a row with this key edits: the open one, else the active one, if any. */
  ghost predicate SectorsOf<C>(s: L.Book<C>, key: string, sectors: seq<string>) {
    && (forall i: nat :: OpenAt(s, key, i) ==> sectors == s[i].body.sectors)
    && ((forall i: nat :: !OpenAt(s, key, i)) ==> forall i: nat :: ActiveAt(s, key, i) ==> sectors == s[i].body.sectors)
    && ((forall i: nat :: !OpenAt(s, key, i) && !ActiveAt(s, key, i)) ==> sectors == [])
  }

  /** One rule alone is active under the key, with this text, maker and approval, and none is open. */
  ghost predicate RuleStands<C>(s: R.Book<C>, key: string, body: C, signed: L.SignOff) {
    && (exists n: nat :: ActiveAt(s, key, n))
    && (forall n: nat :: ActiveAt(s, key, n) ==>
          && s[n].isCurrent && s[n].body == body && s[n].createdBy == signed.author
          && s[n].approval == Some(A.Approval(signed.reviewer, signed.ref)) && signed.reviewer != signed.author)
    && (forall i: nat, j: nat :: ActiveAt(s, key, i) && ActiveAt(s, key, j) ==> i == j)
    && (forall i: nat :: !OpenAt(s, key, i))
  }

  ghost predicate RuleUntouched<C>(s: R.Book<C>, t: R.Book<C>, key: string) {
    && |s| <= |t| && (forall i :: 0 <= i < |s| ==> t[i].key == s[i].key && (s[i].key == key ==> t[i] == s[i]))
    && forall i :: |s| <= i < |t| ==> t[i].key != key
  }

  /** In a book in order a key has one open rule and one active rule at most. */
  lemma OneOfEach<C>(s: R.Book<C>, key: string, i: nat, j: nat)
    requires R.BookInv(s)
    requires (OpenAt(s, key, i) && OpenAt(s, key, j)) || (ActiveAt(s, key, i) && ActiveAt(s, key, j))
    ensures i == j
  {
    R.InvPlaces(s, i);
    R.InvPlaces(s, j);
    assert s[i].group == s[j].group;
    assert R.AbsBook(s)[i] == R.Abs(s[i]) && R.AbsBook(s)[j] == R.Abs(s[j]);
  }

  /** What applying a row edited: the open rule of the key, or the new one at the end. */
  function Edited<C>(s: R.Book<C>, key: string): nat {
    var open := R.NewestOpen(s, key);
    if open.Some? then open.value else |s|
  }

  lemma RowAtTarget<C>(s: R.Book<C>, key: string, body: C, signed: L.SignOff)
    requires R.BookInv(s) && R.ApplyRow(s, key, body, signed.actor, signed.author, signed.reviewer, signed.ref).Ok?
    ensures var t := R.ApplyRow(s, key, body, signed.actor, signed.author, signed.reviewer, signed.ref).value;
            var n := Edited(s, key);
            n < |t| && R.SignedOff(t[n], key, body, signed.author, signed.reviewer, signed.ref)
  {
    R.RowEdits(s, key, body, signed.actor);
    R.RowIsFourSteps(s, key, body, signed.actor, signed.author, signed.reviewer, signed.ref);
    L.FirstEditTouches(s, key, body, signed.actor);
    var n := Edited(s, key);
    var edited := R.ApplyEdit(s, R.FirstEdit(s, key, body, signed.actor)).value;
    var reassigned := edited[n := edited[n].(createdBy := signed.author)];
    R.SignOffCovers(reassigned, n, signed.reviewer, signed.ref, n);
  }

  /** No rule but the one edited comes to be open. */
  lemma NothingElseOpens<C>(s: R.Book<C>, key: string, body: C, signed: L.SignOff)
    requires R.BookInv(s) && R.ApplyRow(s, key, body, signed.actor, signed.author, signed.reviewer, signed.ref).Ok?
    ensures var t := R.ApplyRow(s, key, body, signed.actor, signed.author, signed.reviewer, signed.ref).value;
            forall i :: 0 <= i < |t| && i != Edited(s, key) && R.IsOpen(t[i]) ==> i < |s| && t[i] == s[i]
  {
    R.RowEdits(s, key, body, signed.actor);
    R.RowIsFourSteps(s, key, body, signed.actor, signed.author, signed.reviewer, signed.ref);
  }

  lemma RowStands<C>(s: R.Book<C>, key: string, body: C, signed: L.SignOff)
    requires R.BookInv(s) && R.ApplyRow(s, key, body, signed.actor, signed.author, signed.reviewer, signed.ref).Ok?
    ensures var t := R.ApplyRow(s, key, body, signed.actor, signed.author, signed.reviewer, signed.ref).value;
            R.BookInv(t) && RuleStands(t, key, body, signed) && forall k :: k != key ==> RuleUntouched(s, t, k)
  {
    var t := R.ApplyRow(s, key, body, signed.actor, signed.author, signed.reviewer, signed.ref).value;
    var n := Edited(s, key);
    R.RowKeepsInv(s, key, body, signed.actor, signed.author, signed.reviewer, signed.ref);
    L.RowTouches(s, key, body, signed.actor, signed.author, signed.reviewer, signed.ref);
    RowAtTarget(s, key, body, signed);
    NothingElseOpens(s, key, body, signed);
    R.NewestOpenFails(s, key);
    R.InvPlaces(t, n);
    assert ActiveAt(t, key, n);
    forall i: nat, j: nat | ActiveAt(t, key, i) && ActiveAt(t, key, j) ensures i == j {
      OneOfEach(t, key, i, j);
    }
    forall i: nat ensures !OpenAt(t, key, i) {
      if OpenAt(t, key, i) {
        assert OpenAt(s, key, i);
        OneOfEach(s, key, i, n);
      }
    }
  }

  lemma RowBodyMeans<C>(s: L.Book<C>, row: L.Row<C>)
    requires R.BookInv(s)
    ensures L.RowBody(s, row).text == row.body && SectorsOf(s, row.key, L.RowBody(s, row).sectors)
  {
    R.NewestOpenFails(s, row.key);
    R.ActiveWithKeyFails(s, row.key);
    forall i | 0 <= i < |s| ensures s[i].isCurrent <==> s[i].status == R.Active { R.InvPlaces(s, i); }
    var r := L.RuleFor(s, row.key);
    if r.Some? {
      forall i: nat | OpenAt(s, row.key, i) ensures i == r.value { OneOfEach(s, row.key, i, r.value); }
      forall i: nat | ActiveAt(s, row.key, i) && R.NewestOpen(s, row.key).None? ensures i == r.value {
        OneOfEach(s, row.key, i, r.value);
      }
      assert OpenAt(s, row.key, r.value) || ActiveAt(s, row.key, r.value);
    }
  }

  /** Row `i` is the last one with its key. */
  predicate LastWithKey<C>(rows: seq<L.Row<C>>, i: nat) {
    i < |rows| && forall j :: i < j < |rows| ==> rows[j].key != rows[i].key
  }

  /** The last row with a key stands, for the sectors the rule of the key was for; other keys are not touched. */
  ghost predicate RulesStand<C>(s: L.Book<C>, t: L.Book<C>, rows: seq<L.Row<C>>, signed: L.SignOff) {
    && (forall i: nat, x :: LastWithKey(rows, i) && SectorsOf(s, rows[i].key, x)
                            ==> RuleStands(t, rows[i].key, L.RuleBody(x, rows[i].body), signed))
    && (forall k :: (forall i :: 0 <= i < |rows| ==> rows[i].key != k) ==> RuleUntouched(s, t, k))
    && forall k, x :: SectorsOf(s, k, x) ==> SectorsOf(t, k, x)
  }

  lemma SameSectors<C>(s: L.Book<C>, t: L.Book<C>, key: string, x: seq<string>)
    requires RuleUntouched(s, t, key)
    ensures SectorsOf(s, key, x) <==> SectorsOf(t, key, x)
  {
    forall i: nat
      ensures (OpenAt(s, key, i) <==> OpenAt(t, key, i)) && (ActiveAt(s, key, i) <==> ActiveAt(t, key, i))
              && (OpenAt(s, key, i) || ActiveAt(s, key, i) ==> t[i] == s[i])
    {}
  }

  lemma SectorsAreOne<C>(s: L.Book<C>, key: string, x: seq<string>, y: seq<string>)
    requires SectorsOf(s, key, x) && SectorsOf(s, key, y)
    ensures x == y
  {}

  lemma RuleStaysStanding<C>(s: R.Book<C>, t: R.Book<C>, key: string, body: C, signed: L.SignOff)
    requires RuleStands(s, key, body, signed) && RuleUntouched(s, t, key)
    ensures RuleStands(t, key, body, signed)
  {
    forall i: nat
      ensures (OpenAt(s, key, i) <==> OpenAt(t, key, i)) && (ActiveAt(s, key, i) <==> ActiveAt(t, key, i))
              && (ActiveAt(s, key, i) ==> t[i] == s[i])
    {}
  }

  /** One row: it stands with the sectors of its key, which it keeps as it keeps those of every other. */
  lemma RowInstalls<C>(sectors: set<string>, s: L.Book<C>, row: L.Row<C>, signed: L.SignOff)
    requires R.BookInv(s) && L.ApplyRule(sectors, s, row, signed).Some?
    ensures var t := L.ApplyRule(sectors, s, row, signed).value;
            && (forall x :: SectorsOf(s, row.key, x) ==> RuleStands(t, row.key, L.RuleBody(x, row.body), signed))
            && (forall k :: k != row.key ==> RuleUntouched(s, t, k))
            && forall k, x :: SectorsOf(s, k, x) ==> SectorsOf(t, k, x)
  {
    var body := L.RowBody(s, row);
    var t := L.ApplyRule(sectors, s, row, signed).value;
    RowStands(s, row.key, body, signed);
    RowBodyMeans(s, row);
    forall x | SectorsOf(s, row.key, x) ensures body == L.RuleBody(x, row.body) {
      SectorsAreOne(s, row.key, x, body.sectors);
    }
    forall k, x | SectorsOf(s, k, x) ensures SectorsOf(t, k, x) {
      if k != row.key {
        SameSectors(s, t, k, x);
      }
    }
  }

  lemma {:induction false} RulesInstall<C>(sectors: set<string>, s: L.Book<C>, rows: seq<L.Row<C>>, signed: L.SignOff)
    requires R.BookInv(s) && L.ApplyRules(sectors, s, rows, signed).Some?
    ensures RulesStand(s, L.ApplyRules(sectors, s, rows, signed).value, rows, signed)
  {
    if rows != [] {
      var n := |rows| - 1;
      var b, t := L.ApplyRules(sectors, s, rows[..n], signed).value, L.ApplyRules(sectors, s, rows, signed).value;
      RulesInstall(sectors, s, rows[..n], signed);
      L.RulesKeepInv(sectors, s, rows[..n], signed);
      RowInstalls(sectors, b, rows[n], signed);
      OneMoreRule(s, b, t, rows, signed);
    }
  }

  lemma OneMoreRule<C>(s: L.Book<C>, b: L.Book<C>, t: L.Book<C>, rows: seq<L.Row<C>>, signed: L.SignOff)
    requires rows != [] && RulesStand(s, b, rows[..|rows| - 1], signed)
    requires var row := rows[|rows| - 1];
             && (forall x :: SectorsOf(b, row.key, x) ==> RuleStands(t, row.key, L.RuleBody(x, row.body), signed))
             && (forall k :: k != row.key ==> RuleUntouched(b, t, k))
             && forall k, x :: SectorsOf(b, k, x) ==> SectorsOf(t, k, x)
    ensures RulesStand(s, t, rows, signed)
  {
    var n := |rows| - 1;
    forall i: nat, x | LastWithKey(rows, i) && SectorsOf(s, rows[i].key, x)
      ensures RuleStands(t, rows[i].key, L.RuleBody(x, rows[i].body), signed)
    {
      assert SectorsOf(b, rows[i].key, x);
      if i < n {
        assert LastWithKey(rows[..n], i) && rows[..n][i] == rows[i];
        RuleStaysStanding(b, t, rows[i].key, L.RuleBody(x, rows[i].body), signed);
      }
    }
    forall k | forall i :: 0 <= i < |rows| ==> rows[i].key != k ensures RuleUntouched(s, t, k) {
      assert RuleUntouched(s, b, k) && RuleUntouched(b, t, k);
    }
  }

  // ----- the whole dataset

  /** Everything an activated dataset leaves: each part of the file installed, and the dataset itself active. */
  ghost predicate DatasetStands<M, C>(s: L.State<M, C>, t: L.State<M, C>, id: nat, signed: L.SignOff)
    requires id < |s.uploads|
  {
    var u := s.uploads[id];
    && Installed(s.library, u.content, t.library)
    && (u.sheet.None? ==> t.matrices == s.matrices)
    && (u.sheet.Some? ==> SheetStands(s.matrices, t.matrices, u.sheet.value, signed))
    && RulesStand(s.book, t.book, u.rules, signed)
    && |t.uploads| == |s.uploads| && t.uploads[id] == u.(status := L.Active)
    && forall i :: 0 <= i < |s.uploads| && i != id ==> t.uploads[i] == s.uploads[i]
  }

  /**
   * Whenever an activation goes through in a reachable state, every row of the file stands, signed off by the dataset's
   * author and reviewer; a refused one changes nothing but that the dataset has failed.
   */
  lemma ActivationInstalls<M, C>(s: L.State<M, C>, id: nat, actor: string)
    requires L.Inv(s)
    ensures var (t, why) := L.Activated(s, id, actor);
            match why
            case None =>
              && id < |s.uploads| && s.uploads[id].status == L.Approved && s.uploads[id].reviewer.Some?
              && DatasetStands(s, t, id, L.SignOff(actor, s.uploads[id].author, s.uploads[id].reviewer.value,
                                                   L.Reference(id)))
            case Some(refusal) =>
              && t.library == s.library && t.matrices == s.matrices && t.book == s.book
              && (refusal == L.NotFound <==> id >= |s.uploads|)
              && (refusal == L.NotApproved <==> id < |s.uploads| && s.uploads[id].status != L.Approved)
              && (refusal == L.ContentRefused ==> t.uploads == s.uploads[id := s.uploads[id].(status := L.Failed)])
              && (refusal != L.ContentRefused ==> t == s)
  {
    if id < |s.uploads| && s.uploads[id].status == L.Approved {
      var u := s.uploads[id];
      assert L.ReviewedByOther(u) && L.Awaited(s.library, u);
      if L.Applied(s, id, actor).Some? {
        var signed := L.SignOff(actor, u.author, u.reviewer.value, L.Reference(id));
        AppliedInstalls(s.library, u.content);
        if u.sheet.Some? {
          SheetInstalls(s.library.sectors, s.matrices, u.sheet.value, signed);
        }
        RulesInstall(s.library.sectors, s.book, u.rules, signed);
      }
    }
  }

  // ----- what the validation asks for

  /** The key is a row of the file, or that of a current document. */
  ghost predicate PersonaThere(lib: D.Library, ds: D.Dataset, key: string) {
    (exists r :: r in ds.personas && r.key == key) || exists i: nat :: FirstCurrent(lib.personas, key, i)
  }

  ghost predicate ScenarioThere(lib: D.Library, ds: D.Dataset, key: string) {
    (exists r :: r in ds.scenarios && r.key == key) || exists i: nat :: FirstCurrent(lib.scenarios, key, i)
  }

  /** A question the file brings, or one that is active. */
  ghost predicate QuestionThere(lib: D.Library, ds: D.Dataset, key: string) {
    (exists r :: r in ds.questions && r.key == key) || (key in lib.questions && lib.questions[key].active)
  }

  /** Every reference of the file resolves, in the file or in the content, and the sheet has no errors. */
  ghost predicate Resolves(lib: D.Library, ds: D.Dataset) {
    && (forall p :: p in ds.personas ==>
          && p.body.sector in lib.sectors
          && forall k :: p.defaultScenario == Some(k) && k != "" ==> ScenarioThere(lib, ds, k))
    && (forall r :: r in ds.questions ==>
          && (forall x :: x in r.sectors ==> x in lib.sectors)
          && (forall k :: k in r.personaKeys ==> PersonaThere(lib, ds, k))
          && (forall k :: k in r.scenarioKeys ==> ScenarioThere(lib, ds, k))
          && (forall links, k :: r.trigger == Some(links) && k in links ==> QuestionThere(lib, ds, k)))
    && (forall s :: s in ds.scenarios ==> PersonaThere(lib, ds, s.body.personaKey) && s.body.flow != [])
    && ds.sheetErrors == []
  }

  /** The scenario's links all lead to questions, and its required facts to questions they lead to. */
  ghost predicate FlowHolds(g: Reachability.Graph, s: D.ScenarioBody) {
    && (forall k :: k in s.flow ==> k in g)
    && (forall k, l :: Reachability.Reachable(g, Elements(s.flow), k) && l in g[k].followUps ==> l in g)
    && forall f :: f in s.required ==> exists k :: Reachability.Reachable(g, Elements(s.flow), k) && g[k].factKey == f
  }

  lemma CurrentThere<C>(s: V.Store<C>, key: string)
    ensures V.CurrentKey(s, key) <==> exists i: nat :: FirstCurrent(s, key, i)
  {
    V.CurrentWithKeyFails(s, key);
    if V.CurrentWithKey(s, key).Some? {
      CurrentIsFirst(s, key, V.CurrentWithKey(s, key).value);
    }
    if i: nat :| FirstCurrent(s, key, i) {
      assert s[i].isCurrent && s[i].key == key;
    }
  }

  lemma MergedThere(lib: D.Library, ds: D.Dataset, key: string)
    ensures key in D.Merged(lib, ds) <==> QuestionThere(lib, ds, key)
  {
    D.RowsKeys(ds.questions, key);
  }

  lemma FlowMeans(g: Reachability.Graph, s: D.ScenarioBody)
    ensures D.AcceptsFlow(g, true, s) <==> s.flow != [] && FlowHolds(g, s)
  {
    var flow := Elements(s.flow);
    if D.AcceptsFlow(g, true, s) {
      forall k | k in s.flow ensures k in g {
        Reachability.FlowIsMentioned(g, flow, k);
        assert !Reachability.Dangling(g, flow, k);
      }
      forall k, l | Reachability.Reachable(g, flow, k) && l in g[k].followUps ensures l in g {
        Reachability.FollowUpIsMentioned(g, flow, k, l);
        assert !Reachability.Dangling(g, flow, l);
      }
    }
    if FlowHolds(g, s) {
      forall k ensures !Reachability.Dangling(g, flow, k) {
        if Reachability.Dangling(g, flow, k) {
          var path :| Reachability.IsPath(g, flow, path) && path[|path| - 1] == k;
          if |path| > 1 {
            D.PathPrefix(g, flow, path);
          }
        }
      }
    }
  }

  /**
   * The validation accepts exactly the files whose references resolve and whose scenarios hold on the merged content.
   */
  lemma AcceptsMeans(lib: D.Library, ds: D.Dataset)
    ensures D.Accepts(lib, ds)
            <==> Resolves(lib, ds) && forall s :: s in ds.scenarios ==> FlowHolds(D.Merged(lib, ds), s.body)
  {
    forall k ensures D.KnownPersona(lib, ds, k) <==> PersonaThere(lib, ds, k) { CurrentThere(lib.personas, k); }
    forall k ensures D.KnownScenario(lib, ds, k) <==> ScenarioThere(lib, ds, k) { CurrentThere(lib.scenarios, k); }
    forall k ensures k in D.Merged(lib, ds) <==> QuestionThere(lib, ds, k) { MergedThere(lib, ds, k); }
    forall s | s in ds.scenarios
      ensures D.AcceptsFlow(D.Merged(lib, ds), true, s.body)
              <==> s.body.flow != [] && FlowHolds(D.Merged(lib, ds), s.body)
    {
      FlowMeans(D.Merged(lib, ds), s.body);
    }
  }

  /** What is looked up: the file's question first, else the active one. */
  lemma MergedMeans(lib: D.Library, ds: D.Dataset, key: string)
    requires D.QuestionsOnce(ds.questions)
    ensures forall r :: r in ds.questions && r.key == key ==>
              && key in D.Merged(lib, ds) && D.Merged(lib, ds)[key].factKey == r.factKey
              && D.Merged(lib, ds)[key].followUps == if r.trigger.Some? then r.trigger.value else []
    ensures (forall r :: r in ds.questions ==> r.key != key) && key in D.Merged(lib, ds) ==>
              && key in lib.questions && D.Merged(lib, ds)[key].factKey == lib.questions[key].factKey
              && D.Merged(lib, ds)[key].followUps == lib.questions[key].followUps
  {
    D.RowsKeys(ds.questions, key);
    forall r | r in ds.questions && r.key == key ensures key in D.RowsGraph(ds.questions) {
      D.RowsHere(lib.questions, ds.questions, r);
    }
    D.RowsAt(lib.questions, ds.questions, key);
  }

  // ----- uploading, reviewing and the tenant's sectors

  /** An upload is stored as it was given, and nothing else changes. */
  lemma UploadMeans<M, C>(s: L.State<M, C>, author: string, parsed: bool, content: D.Dataset, sheet: Option<L.Row<M>>,
                          rules: seq<L.Row<C>>)
    ensures var t, n := L.Uploaded(s, author, parsed, content, sheet, rules), |s.uploads|;
            && t.library == s.library && t.matrices == s.matrices && t.book == s.book
            && |t.uploads| == n + 1 && t.uploads[..n] == s.uploads
            && t.uploads[n].author == author && t.uploads[n].reviewer == None && t.uploads[n].content == content
            && t.uploads[n].sheet == sheet && t.uploads[n].rules == rules
            && t.uploads[n].status == if parsed && D.OneRowPerKey(content) && D.Accepts(s.library, content)
                                      then L.Validated else L.Rejected
  {}

  /** A validated dataset is approved by the reviewer who says so, unless it is the author. */
  lemma ReviewMeans<M, C>(s: L.State<M, C>, id: nat, reviewer: string)
    ensures match L.Approve(s, id, reviewer)
            case Ok(t) =>
              && id < |s.uploads| && s.uploads[id].status == L.Validated && reviewer != s.uploads[id].author
              && t.library == s.library && t.matrices == s.matrices && t.book == s.book && |t.uploads| == |s.uploads|
              && t.uploads[id] == s.uploads[id].(status := L.Approved, reviewer := Some(reviewer))
              && forall i :: 0 <= i < |s.uploads| && i != id ==> t.uploads[i] == s.uploads[i]
            case Err(why) =>
              && (why == L.NotFound <==> id >= |s.uploads|)
              && (why == L.NotValidated <==> id < |s.uploads| && s.uploads[id].status != L.Validated)
              && (why == L.SelfApproval ==> reviewer == s.uploads[id].author)
              && why in {L.NotFound, L.NotValidated, L.SelfApproval}
  {}

  /** The sectors become those wanted, unless one that goes is still named by something stored or awaited. */
  lemma SectorsMean<M, C>(s: L.State<M, C>, wanted: set<string>)
    ensures var t := L.Resectored(s, wanted);
            if forall x :: x in s.library.sectors && x !in wanted ==> !L.IsNamed(s, x)
            then t == s.(library := s.library.(sectors := wanted)) else t == s
  {}

  /** What any other operation does to the state: one edit of one collection, if it names no sector out of place. */
  lemma DirectEditMeans<M, C>(s: L.State<M, C>, op: L.Op<M, C>)
    requires op.DMatrix? || op.DRule? || op.DPersona? || op.DScenario? || op.DQuestion?
    ensures var t := L.Step(s, op);
            if exists x :: x in L.NamedBy(op) && x != "" && x !in s.library.sectors then t == s
            else match op
                 case DMatrix(edit) => t == s.(matrices := A.AfterEdit(s.matrices, edit))
                 case DRule(edit) => t == s.(book := R.After(s.book, edit))
                 case DPersona(edit) =>
                   && t == s.(library := t.library) && t.library == s.library.(personas := t.library.personas)
                   && t.library.personas == V.After(s.library.personas, edit)
                 case DScenario(edit) =>
                   && t == s.(library := t.library) && t.library == s.library.(scenarios := t.library.scenarios)
                   && t.library.scenarios == V.After(s.library.scenarios, edit)
                 case DQuestion(key, question) =>
                   && t == s.(library := t.library) && t.library == s.library.(questions := t.library.questions)
                   && t.library.questions == s.library.questions[key := question]
                 case _ => true
  {}

  // ----- the edits of matrices and rules

  /** The body of an edit has its editor as the maker and no approval yet. */
  function Unapproved<C>(body: C, actor: string): A.Authored<C> {
    A.Authored(body, actor, None)
  }

  /** The approval of a draft by somebody else than its maker is recorded under that name, any other refused. */
  ghost predicate ApprovalRecorded<C>(s: A.Matrices<C>, id: nat, approver: string, ref: string, r: A.Outcome<C>) {
    match r
    case Ok(t) =>
      && OnlyAt(s, t, id) && s[id].status == V.Draft && approver != s[id].content.createdBy
      && t[id] == s[id].(content := s[id].content.(approval := Some(A.Approval(approver, ref))))
    case Err(why) =>
      if id >= |s| then why == A.Because(V.NotFound)
      else if s[id].status != V.Draft then why == A.Because(V.NotADraft)
      else why == A.SelfApproval && approver == s[id].content.createdBy
  }

  /** What each edit of a matrix is in the versioned store; only an approval by the maker is refused on top of that. */
  lemma MatrixEditMeans<C>(s: A.Matrices<C>, e: A.MatrixEdit<C>)
    ensures match e
            case MCreate(key, body, actor) =>
              A.ApplyEdit(s, e) == A.FromChange(V.Apply(s, V.DoCreate(key, Unapproved(body, actor))))
            case MUpdate(id, newKey, body, actor) =>
              A.ApplyEdit(s, e) == A.FromChange(V.Apply(s, V.DoRevise(id, newKey, Unapproved(body, actor))))
            case MApprove(id, approver, ref) => ApprovalRecorded(s, id, approver, ref, A.ApplyEdit(s, e))
            case MActivate(id) => A.ApplyEdit(s, e) == A.FromChange(V.Apply(s, V.DoActivate(id, A.Admitted())))
            case MDeactivate(id) => A.ApplyEdit(s, e) == A.FromChange(V.Apply(s, V.DoDeactivate(id)))
            case MSheet(_, _, _, _, _, _) => true
  {}

  /** A matrix is admitted when its approval names a change that is not blank. */
  lemma AdmittedMeans<C>(c: A.Authored<C>)
    ensures A.Admitted()(c)
            <==> c.approval.Some? && exists i :: 0 <= i < |c.approval.value.changeRef|
                                                 && !A.IsSpace(c.approval.value.changeRef[i])
  {}

  /** Why an edit of a rule is refused, each refusal with its exact reason. */
  lemma RuleRefusalMeans<C>(s: R.Book<C>, e: R.RuleEdit<C>)
    requires R.BookInv(s) && !e.RRow? && R.ApplyEdit(s, e).Err?
    ensures var why := R.ApplyEdit(s, e).error;
            match e
            case RCreate(key, _, _) => why == R.KeyTaken && exists i :: 0 <= i < |s| && s[i].key == key
            case RUpdate(id, _, _) =>
              if id >= |s| then why == R.NotFound
              else if s[id].status == R.Retired then why == R.IsRetired
              else why == R.ReplacementIsOpen && s[id].status == R.Active && exists i: nat :: OpenAt(s, s[id].key, i)
            case RApprove(id, approver, _) =>
              if id >= |s| then why == R.NotFound
              else if s[id].status != R.Draft then why == R.NotADraft
              else why == R.SelfApproved && approver == s[id].createdBy
            case RActivate(id) =>
              if id >= |s| then why == R.NotFound
              else why == R.NotApproved && s[id].status != R.Active
                   && (s[id].status == R.Approved ==> A.Blank(s[id].approval.value.changeRef))
            case RRetire(id) => why == R.NotFound && id >= |s|
            case RRow(_, _, _, _, _, _) => true
  {
    if e.RUpdate? && e.id < |s| && s[e.id].status == R.Active {
      var i :| 0 <= i < |s| && s[i].group == s[e.id].group && R.IsOpen(s[i]);
      R.SameGroupSameKey(s, i, e.id);
      assert OpenAt(s, s[e.id].key, i);
    }
    if e.RActivate? && e.id < |s| {
      R.InvPlaces(s, e.id);
    }
  }
}
