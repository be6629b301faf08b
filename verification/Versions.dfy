/**
 * Copy-on-write versioning of one tenant's documents (src/lib/versioned.ts): personas, scenarios and scoring
 * matrices. A document's id is its position in the store.
 */
module Versions {
  import opened Prelude

  datatype VersionStatus = Draft | Active | Deactivated

  datatype Version<+C> =
    Version(group: nat, key: string, number: nat, isCurrent: bool, status: VersionStatus, content: C)

  type Store<+C> = seq<Version<C>>

  datatype Refusal = NotFound | KeyTaken | KeyIsFixed | IsDeactivated | DraftIsOpen | NotAdmitted | NotADraft

  type Change<+C> = Result<Store<C>, Refusal>

  // ----- lookups

  predicate CurrentKey<C>(s: Store<C>, key: string) {
    exists i :: 0 <= i < |s| && s[i].isCurrent && s[i].key == key
  }

  predicate HasDraft<C>(s: Store<C>, group: nat) {
    exists i :: 0 <= i < |s| && s[i].group == group && s[i].status == Draft
  }

  /** The highest version number of a group; 0 when the group has no document. */
  function Latest<C>(s: Store<C>, group: nat): nat {
    if s == [] then 0
    else
      var before := Latest(s[..|s| - 1], group);
      var v := s[|s| - 1];
      if v.group == group && v.number > before then v.number else before
  }

  /** The first current document of a group. */
  function CurrentOf<C>(s: Store<C>, group: nat): (r: Option<nat>)
    ensures r.Some? ==> r.value < |s| && s[r.value].group == group && s[r.value].isCurrent
  {
    if s == [] then None
    else
      var before := CurrentOf(s[..|s| - 1], group);
      if before.Some? then before
      else if s[|s| - 1].group == group && s[|s| - 1].isCurrent then Some(|s| - 1)
      else None
  }

  lemma {:induction false} CurrentOfFails<C>(s: Store<C>, group: nat)
    ensures CurrentOf(s, group).None? <==> forall i :: 0 <= i < |s| && s[i].group == group ==> !s[i].isCurrent
  {
    if s != [] {
      CurrentOfFails(s[..|s| - 1], group);
    }
  }

  // ----- operations

  function CreateDraft<C>(s: Store<C>, key: string, content: C): Change<C> {
    if CurrentKey(s, key) then Err(KeyTaken)
    else Ok(s + [Version(|s|, key, 1, false, Draft, content)])
  }

  /** A draft is edited in place; an active version is left alone and copied into the next draft. */
  function Revise<C>(s: Store<C>, id: nat, key: Option<string>, content: C): Change<C> {
    if id >= |s| then Err(NotFound)
    else if key.Some? && key.value != s[id].key then Err(KeyIsFixed)
    else if s[id].status == Draft then Ok(s[id := s[id].(content := content)])
    else if s[id].status == Deactivated then Err(IsDeactivated)
    else if HasDraft(s, s[id].group) then Err(DraftIsOpen)
    else Ok(s + [Version(s[id].group, s[id].key, Latest(s, s[id].group) + 1, false, Draft, content)])
  }

  /** A service that saves a draft directly, as recording an approval does. */
  function AmendDraft<C>(s: Store<C>, id: nat, content: C): Change<C> {
    if id >= |s| then Err(NotFound)
    else if s[id].status != Draft then Err(NotADraft)
    else Ok(s[id := s[id].(content := content)])
  }

  function Retired<C>(s: Store<C>, id: nat): Store<C>
    requires id < |s|
  {
    s[id := s[id].(isCurrent := false, status := Deactivated)]
  }

  /** `admitted` is the verdict of the validation hook on the document's content. */
  function Activate<C>(s: Store<C>, id: nat, admitted: C -> bool): Change<C> {
    if id >= |s| then Err(NotFound)
    else if s[id].status == Active then Ok(s)
    else if s[id].status == Deactivated then Err(IsDeactivated)
    else if !admitted(s[id].content) then Err(NotAdmitted)
    else
      var previous := CurrentOf(s, s[id].group);
      var cleared := if previous.Some? then Retired(s, previous.value) else s;
      Ok(cleared[id := s[id].(isCurrent := true, status := Active)])
  }

  function Deactivate<C>(s: Store<C>, id: nat): Change<C> {
    if id >= |s| then Err(NotFound)
    else if s[id].status == Deactivated then Ok(s)
    else Ok(Retired(s, id))
  }

  datatype Edit<!C> =
    | DoCreate(key: string, content: C)
    | DoRevise(id: nat, newKey: Option<string>, content: C)
    | DoAmend(id: nat, content: C)
    | DoActivate(id: nat, admitted: C -> bool)
    | DoDeactivate(id: nat)

  function Apply<C>(s: Store<C>, e: Edit<C>): Change<C> {
    match e
    case DoCreate(key, content) => CreateDraft(s, key, content)
    case DoRevise(id, newKey, content) => Revise(s, id, newKey, content)
    case DoAmend(id, content) => AmendDraft(s, id, content)
    case DoActivate(id, admitted) => Activate(s, id, admitted)
    case DoDeactivate(id) => Deactivate(s, id)
  }

  function After<C>(s: Store<C>, e: Edit<C>): Store<C> {
    var change := Apply(s, e);
    if change.Ok? then change.value else s
  }

  function Run<C>(s: Store<C>, edits: seq<Edit<C>>): Store<C> {
    if edits == [] then s else After(Run(s, edits[..|edits| - 1]), edits[|edits| - 1])
  }

  // ----- what holds of every store

  /** How many of the first `n` documents belong to a group. */
  function CountIn<C>(s: Store<C>, group: nat, n: nat): nat
    requires n <= |s|
  {
    if n == 0 then 0 else CountIn(s, group, n - 1) + if s[n - 1].group == group then 1 else 0
  }

  /** Two documents of one group share the key, are not both current, and are not both drafts. */
  predicate Compatible<C>(a: Version<C>, b: Version<C>) {
    a.group == b.group ==> a.key == b.key && !(a.isCurrent && b.isCurrent) && !(a.status == Draft && b.status == Draft)
  }

  /** The document's number counts the group's documents up to it, and it is current exactly when active. */
  predicate WellPlaced<C>(s: Store<C>, i: nat)
    requires i < |s|
  {
    && s[i].group < |s|
    && (s[i].isCurrent <==> s[i].status == Active)
    && s[i].number == CountIn(s, s[i].group, i + 1)
  }

  ghost predicate Sound<C>(s: Store<C>) {
    && (forall i :: 0 <= i < |s| ==> WellPlaced(s, i))
    && (forall i, j :: 0 <= i < j < |s| ==> Compatible(s[i], s[j]))
  }

  lemma {:induction false} CountSame<C>(s: Store<C>, t: Store<C>, group: nat, n: nat)
    requires n <= |s| <= |t| && forall i :: 0 <= i < n ==> t[i].group == s[i].group
    ensures CountIn(t, group, n) == CountIn(s, group, n)
  {
    if n > 0 {
      CountSame(s, t, group, n - 1);
    }
  }

  /** In a sound store the highest number of a group is the number of its documents. */
  lemma {:induction false} LatestCounts<C>(s: Store<C>, group: nat, n: nat)
    requires n <= |s| && Sound(s)
    ensures Latest(s[..n], group) == CountIn(s, group, n)
  {
    if n > 0 {
      LatestCounts(s, group, n - 1);
      assert s[..n][..n - 1] == s[..n - 1];
      assert s[..n][n - 1] == s[n - 1] && WellPlaced(s, n - 1);
    }
  }

  lemma AppendKeepsSound<C>(s: Store<C>, v: Version<C>)
    requires Sound(s) && v.status == Draft && !v.isCurrent && v.group <= |s|
    requires v.number == CountIn(s, v.group, |s|) + 1
    requires forall i :: 0 <= i < |s| && s[i].group == v.group ==> s[i].key == v.key && s[i].status != Draft
    ensures Sound(s + [v])
  {
    var t := s + [v];
    forall i | 0 <= i < |t| ensures WellPlaced(t, i) {
      if i < |s| {
        assert WellPlaced(s, i);
        CountSame(s, t, t[i].group, i + 1);
      } else {
        CountSame(s, t, v.group, |s|);
      }
    }
    forall i, j | 0 <= i < j < |t| ensures Compatible(t[i], t[j]) {
      assert j == |s| || Compatible(s[i], s[j]);
    }
  }

  /** `b` is `a` with a status, content or currency that can do no harm to its group. */
  predicate Relabels<C>(a: Version<C>, b: Version<C>) {
    && b.group == a.group && b.key == a.key && b.number == a.number
    && (b.isCurrent <==> b.status == Active) && (b.status == Draft ==> a.status == Draft)
  }

  lemma RelabelKeepsSound<C>(s: Store<C>, t: Store<C>)
    requires Sound(s) && |t| == |s|
    requires forall i :: 0 <= i < |s| ==> Relabels(s[i], t[i])
    requires forall i, j :: 0 <= i < j < |s| && t[i].group == t[j].group ==> !(t[i].isCurrent && t[j].isCurrent)
    ensures Sound(t)
  {
    forall i | 0 <= i < |t| ensures WellPlaced(t, i) {
      assert WellPlaced(s, i) && Relabels(s[i], t[i]);
      CountSame(s, t, t[i].group, i + 1);
    }
    forall i, j | 0 <= i < j < |t| ensures Compatible(t[i], t[j]) {
      assert Compatible(s[i], s[j]) && Relabels(s[i], t[i]) && Relabels(s[j], t[j]);
    }
  }

  lemma {:induction false} NoneInNewGroup<C>(s: Store<C>, n: nat)
    requires n <= |s| && Sound(s)
    ensures CountIn(s, |s|, n) == 0
  {
    if n > 0 {
      NoneInNewGroup(s, n - 1);
      assert WellPlaced(s, n - 1);
    }
  }

  /** Replacing one document by a relabelled one that is not current keeps the store sound. */
  lemma ReplaceKeepsSound<C>(s: Store<C>, id: nat, v: Version<C>)
    requires Sound(s) && id < |s| && Relabels(s[id], v)
    requires v.isCurrent ==> forall i :: 0 <= i < |s| && s[i].group == v.group && i != id ==> !s[i].isCurrent
    ensures Sound(s[id := v])
  {
    var t := s[id := v];
    forall i | 0 <= i < |s| ensures Relabels(s[i], t[i]) {
      assert WellPlaced(s, i);
    }
    forall i, j | 0 <= i < j < |s| && t[i].group == t[j].group ensures !(t[i].isCurrent && t[j].isCurrent) {
      assert Compatible(s[i], s[j]);
    }
    RelabelKeepsSound(s, t);
  }

  lemma ActivateKeepsSound<C>(s: Store<C>, id: nat, admitted: C -> bool)
    requires Sound(s) && Activate(s, id, admitted).Ok?
    ensures Sound(Activate(s, id, admitted).value)
  {
    if s[id].status == Draft {
      var previous := CurrentOf(s, s[id].group);
      CurrentOfFails(s, s[id].group);
      assert WellPlaced(s, id);
      if previous.Some? {
        var p := previous.value;
        forall i | 0 <= i < |s| && s[i].group == s[id].group && i != p ensures !s[i].isCurrent {
          assert if i < p then Compatible(s[i], s[p]) else Compatible(s[p], s[i]);
        }
        ReplaceKeepsSound(s, p, s[p].(isCurrent := false, status := Deactivated));
        ReplaceKeepsSound(Retired(s, p), id, s[id].(isCurrent := true, status := Active));
      } else {
        ReplaceKeepsSound(s, id, s[id].(isCurrent := true, status := Active));
      }
    }
  }

  lemma CreateKeepsSound<C>(s: Store<C>, key: string, content: C)
    requires Sound(s)
    ensures Sound(s + [Version(|s|, key, 1, false, Draft, content)])
  {
    NoneInNewGroup(s, |s|);
    forall i | 0 <= i < |s| ensures s[i].group != |s| { assert WellPlaced(s, i); }
    AppendKeepsSound(s, Version(|s|, key, 1, false, Draft, content));
  }

  lemma CopyKeepsSound<C>(s: Store<C>, id: nat, content: C)
    requires Sound(s) && id < |s| && !HasDraft(s, s[id].group)
    ensures Sound(s + [Version(s[id].group, s[id].key, Latest(s, s[id].group) + 1, false, Draft, content)])
  {
    LatestCounts(s, s[id].group, |s|);
    assert s[..|s|] == s && WellPlaced(s, id);
    forall i | 0 <= i < |s| && s[i].group == s[id].group ensures s[i].key == s[id].key && s[i].status != Draft {
      assert if i < id then Compatible(s[i], s[id]) else i == id || Compatible(s[id], s[i]);
    }
    AppendKeepsSound(s, Version(s[id].group, s[id].key, Latest(s, s[id].group) + 1, false, Draft, content));
  }

  /** One edit keeps: one current document per group, current iff active, one open draft, numbers 1..n. */
  lemma EditKeepsSound<C>(s: Store<C>, e: Edit<C>)
    requires Sound(s)
    ensures Sound(After(s, e))
  {
    if Apply(s, e).Ok? {
      match e
      case DoCreate(key, content) => CreateKeepsSound(s, key, content);
      case DoRevise(id, newKey, content) =>
        if s[id].status == Draft {
          assert WellPlaced(s, id);
          ReplaceKeepsSound(s, id, s[id].(content := content));
        } else {
          CopyKeepsSound(s, id, content);
        }
      case DoAmend(id, content) =>
        assert WellPlaced(s, id);
        ReplaceKeepsSound(s, id, s[id].(content := content));
      case DoActivate(id, admitted) => ActivateKeepsSound(s, id, admitted);
      case DoDeactivate(id) => ReplaceKeepsSound(s, id, s[id].(isCurrent := false, status := Deactivated));
    }
  }

  lemma {:induction false} RunsKeepSound<C>(edits: seq<Edit<C>>)
    ensures Sound(Run([], edits))
  {
    if edits != [] {
      RunsKeepSound(edits[..|edits| - 1]);
      EditKeepsSound(Run([], edits[..|edits| - 1]), edits[|edits| - 1]);
    }
  }

  /** The content that an edit brings in, if it brings in any. */
  function Brings<C>(e: Edit<C>): Option<C> {
    match e
    case DoCreate(_, content) => Some(content)
    case DoRevise(_, _, content) => Some(content)
    case DoAmend(_, content) => Some(content)
    case _ => None
  }

  /** No document has a content that was neither there nor brought in. */
  lemma EditBrings<C>(s: Store<C>, e: Edit<C>, i: nat)
    requires i < |After(s, e)|
    ensures (i < |s| && After(s, e)[i].content == s[i].content) || Brings(e) == Some(After(s, e)[i].content)
  {}

  // ----- frozen versions

  /** The document that was `s[i]` has the same identity and content in `t`. */
  predicate SameVersion<C(==)>(s: Store<C>, t: Store<C>, i: nat) {
    && i < |s| && i < |t|
    && t[i].group == s[i].group && t[i].key == s[i].key && t[i].number == s[i].number && t[i].content == s[i].content
  }

  lemma EditFreezes<C>(s: Store<C>, e: Edit<C>, i: nat)
    requires i < |s| && s[i].status != Draft
    ensures SameVersion(s, After(s, e), i) && After(s, e)[i].status != Draft
    ensures s[i].status == Deactivated && Sound(s) ==> After(s, e)[i].status == Deactivated
  {}

  /** Once a version has left the draft status, no run of edits changes its identity or its content. */
  lemma {:induction false} ActivatedIsFrozen<C>(s: Store<C>, edits: seq<Edit<C>>, i: nat)
    requires i < |s| && s[i].status != Draft
    ensures SameVersion(s, Run(s, edits), i) && Run(s, edits)[i].status != Draft
  {
    if edits != [] {
      var n := |edits| - 1;
      ActivatedIsFrozen(s, edits[..n], i);
      EditFreezes(Run(s, edits[..n]), edits[n], i);
    }
  }

  /** A version that was deactivated is never current again. */
  lemma {:induction false} DeactivatedStaysSo<C>(s: Store<C>, edits: seq<Edit<C>>, i: nat)
    requires Sound(s) && i < |s| && s[i].status == Deactivated
    ensures i < |Run(s, edits)| && Run(s, edits)[i].status == Deactivated
    ensures Sound(Run(s, edits))
  {
    if edits != [] {
      var n := |edits| - 1;
      DeactivatedStaysSo(s, edits[..n], i);
      EditKeepsSound(Run(s, edits[..n]), edits[n]);
      EditFreezes(Run(s, edits[..n]), edits[n], i);
    }
  }

  lemma RunAppend<C>(s: Store<C>, edits: seq<Edit<C>>, e: Edit<C>)
    ensures Run(s, edits + [e]) == After(Run(s, edits), e)
  {}

  /**
   * A new draft's key is only checked against current documents, so two groups can come to share a current key:
   * uniqueness holds within a group, not per key.
   */
  lemma TwoGroupsOneKey<C>(key: string, c: C, open: C -> bool)
    requires open(c)
    ensures exists edits: seq<Edit<C>> :: var s := Run([], edits);
              |s| == 2 && s[0].isCurrent && s[1].isCurrent && s[0].key == s[1].key && s[0].group != s[1].group
  {
    var d0, d1 := Version(0, key, 1, false, Draft, c), Version(1, key, 1, false, Draft, c);
    var a0, a1 := d0.(isCurrent := true, status := Active), d1.(isCurrent := true, status := Active);
    var create := DoCreate(key, c);
    RunAppend([], [], create);
    assert Run([], [] + [create]) == [d0];
    RunAppend([], [create], create);
    assert Run([], [create] + [create]) == [d0, d1];
    var edits := [create] + [create];
    RunAppend([], edits, DoActivate(0, open));
    CurrentOfFails([d0, d1], 0);
    assert Run([], edits + [DoActivate(0, open)]) == [a0, d1];
    RunAppend([], edits + [DoActivate(0, open)], DoActivate(1, open));
    CurrentOfFails([a0, d1], 1);
    assert Run([], edits + [DoActivate(0, open)] + [DoActivate(1, open)]) == [a0, a1];
  }

  // ----- publishing: what a dataset does to the document of a key

  /** The first current document with this key. */
  function CurrentWithKey<C>(s: Store<C>, key: string): (r: Option<nat>)
    ensures r.Some? ==> r.value < |s| && s[r.value].isCurrent && s[r.value].key == key
  {
    if s == [] then None
    else
      var before := CurrentWithKey(s[..|s| - 1], key);
      if before.Some? then before
      else if s[|s| - 1].isCurrent && s[|s| - 1].key == key then Some(|s| - 1)
      else None
  }

  lemma {:induction false} CurrentWithKeyFails<C>(s: Store<C>, key: string)
    ensures CurrentWithKey(s, key).None? <==> !CurrentKey(s, key)
  {
    if s != [] {
      var before := s[..|s| - 1];
      CurrentWithKeyFails(before, key);
      assert CurrentKey(before, key) ==> CurrentKey(s, key);
    }
  }

  /** The current document with this key has an open draft in its group. */
  predicate DraftInTheWay<C>(s: Store<C>, key: string) {
    CurrentWithKey(s, key).Some? && HasDraft(s, s[CurrentWithKey(s, key).value].group)
  }

  /** Some version of the key is there, whatever its status. */
  predicate HasKey<C>(s: Store<C>, key: string) {
    exists i :: 0 <= i < |s| && s[i].key == key
  }

  /** No key is ever lost. */
  lemma KeysStay<C>(s: Store<C>, e: Edit<C>, key: string)
    requires HasKey(s, key)
    ensures HasKey(After(s, e), key)
  {
    var i :| 0 <= i < |s| && s[i].key == key;
    assert After(s, e)[i].key == key;
  }

  /** What an edit of `current`, or a creation, touched: an edited draft, or the new document at the end. */
  function Target<C>(s: Store<C>, current: Option<nat>): nat {
    if current.Some? && current.value < |s| && s[current.value].status == Draft then current.value else |s|
  }

  /** Edits the current document of the key or creates one, then activates the result if its content is admitted. */
  function Publish<C>(s: Store<C>, key: string, content: C, admitted: bool): Change<C> {
    var current := CurrentWithKey(s, key);
    match (if current.Some? then Revise(s, current.value, Some(key), content) else CreateDraft(s, key, content))
    case Err(why) => Err(why)
    case Ok(edited) => Activate(edited, Target(s, current), (c: C) => admitted)
  }

  lemma CurrentIsActive<C>(s: Store<C>, key: string)
    requires Sound(s)
    ensures CurrentWithKey(s, key).Some? ==> s[CurrentWithKey(s, key).value].status == Active
  {
    if CurrentWithKey(s, key).Some? {
      assert WellPlaced(s, CurrentWithKey(s, key).value);
    }
  }

  /** A document is published exactly when it is admitted and no draft is in its way. */
  lemma PublishIff<C>(s: Store<C>, key: string, content: C, admitted: bool)
    requires Sound(s)
    ensures Publish(s, key, content, admitted).Ok? <==> admitted && !DraftInTheWay(s, key)
  {
    CurrentIsActive(s, key);
    CurrentWithKeyFails(s, key);
  }

  /** The two edits that publishing is. */
  lemma PublishIsTwoEdits<C>(s: Store<C>, key: string, content: C, admitted: bool)
    requires Sound(s) && Publish(s, key, content, admitted).Ok?
    ensures var current := CurrentWithKey(s, key);
            var first := if current.Some? then DoRevise(current.value, Some(key), content) else DoCreate(key, content);
            && Apply(s, first).Ok? && |Apply(s, first).value| == |s| + 1
            && Apply(s, first).value[|s|].key == key && Apply(s, first).value[..|s|] == s
            && Publish(s, key, content, admitted) == Apply(Apply(s, first).value, DoActivate(|s|, (c: C) => admitted))
            && Sound(Apply(s, first).value) && Sound(Publish(s, key, content, admitted).value)
  {
    CurrentIsActive(s, key);
    var current := CurrentWithKey(s, key);
    var first := if current.Some? then DoRevise(current.value, Some(key), content) else DoCreate(key, content);
    EditKeepsSound(s, first);
    EditKeepsSound(Apply(s, first).value, DoActivate(|s|, (c: C) => admitted));
  }

  lemma PublishBrings<C>(s: Store<C>, key: string, content: C, admitted: bool, i: nat)
    requires Sound(s) && Publish(s, key, content, admitted).Ok? && i < |Publish(s, key, content, admitted).value|
    ensures var t := Publish(s, key, content, admitted).value;
            t[i].content == content || (i < |s| && t[i].content == s[i].content)
  {
    PublishIsTwoEdits(s, key, content, admitted);
    var current := CurrentWithKey(s, key);
    var first := if current.Some? then DoRevise(current.value, Some(key), content) else DoCreate(key, content);
    var second := DoActivate(|s|, (c: C) => admitted);
    var edited := Apply(s, first).value;
    EditBrings(edited, second, i);
    if i < |edited| {
      EditBrings(s, first, i);
    }
  }

  /** Only documents with this key differ, and only such are new; the last one is current. */
  ghost predicate OnlyTouches<C>(s: Store<C>, t: Store<C>, key: string) {
    && |t| == |s| + 1 && t[|s|].key == key && t[|s|].isCurrent
    && forall i :: 0 <= i < |s| ==> t[i].key == s[i].key && (s[i].key != key ==> t[i] == s[i])
  }

  lemma SameGroupSameKey<C>(s: Store<C>, i: nat, j: nat)
    requires Sound(s) && i < |s| && j < |s| && s[i].group == s[j].group
    ensures s[i].key == s[j].key
  {
    assert i < j ==> Compatible(s[i], s[j]);
    assert j < i ==> Compatible(s[j], s[i]);
  }

  lemma PublishTouches<C>(s: Store<C>, key: string, content: C, admitted: bool)
    requires Sound(s) && Publish(s, key, content, admitted).Ok?
    ensures var t := Publish(s, key, content, admitted).value;
            Sound(t) && OnlyTouches(s, t, key) && t[|s|].content == content
  {
    PublishIsTwoEdits(s, key, content, admitted);
    var current := CurrentWithKey(s, key);
    var first := if current.Some? then DoRevise(current.value, Some(key), content) else DoCreate(key, content);
    var edited := Apply(s, first).value;
    var previous := CurrentOf(edited, edited[|s|].group);
    if previous.Some? {
      SameGroupSameKey(edited, previous.value, |s|);
    }
    assert edited[|s|].status == Draft && edited[|s|].content == content;
  }

  lemma {:induction false} FirstStays<C>(s: Store<C>, t: Store<C>, n: nat, key: string, other: string)
    requires OnlyTouches(s, t, key) && other != key && n <= |s|
    ensures CurrentWithKey(t[..n], other) == CurrentWithKey(s[..n], other)
  {
    if n > 0 {
      FirstStays(s, t, n - 1, key, other);
      assert s[..n][..n - 1] == s[..n - 1] && t[..n][..n - 1] == t[..n - 1];
    }
  }

  /** Publishing under one key changes nothing that the publication of another key depends on. */
  lemma TouchesSpare<C>(s: Store<C>, t: Store<C>, key: string, other: string)
    requires Sound(s) && Sound(t) && OnlyTouches(s, t, key) && other != key
    ensures CurrentWithKey(t, other) == CurrentWithKey(s, other)
    ensures CurrentWithKey(s, other).Some? ==> t[CurrentWithKey(s, other).value] == s[CurrentWithKey(s, other).value]
    ensures DraftInTheWay(t, other) <==> DraftInTheWay(s, other)
  {
    FirstStays(s, t, |s|, key, other);
    assert s[..|s|] == s && t[..|t| - 1] == t[..|s|];
    var current := CurrentWithKey(s, other);
    if current.Some? {
      var group := s[current.value].group;
      forall i | 0 <= i < |t| && t[i].group == group ensures i < |s| && t[i] == s[i] {
        SameGroupSameKey(t, i, current.value);
      }
      forall i | 0 <= i < |s| && s[i].group == group ensures t[i] == s[i] {
        SameGroupSameKey(s, i, current.value);
      }
    }
  }

  /** Afterwards exactly one key more is current, and exactly one more there. */
  lemma TouchesAdd<C>(s: Store<C>, t: Store<C>, key: string, k: string)
    requires Sound(s) && Sound(t) && OnlyTouches(s, t, key)
    ensures CurrentKey(t, k) <==> CurrentKey(s, k) || k == key
    ensures HasKey(t, k) <==> HasKey(s, k) || k == key
  {
    if k == key {
      assert t[|s|].isCurrent && t[|s|].key == k;
    } else {
      if CurrentKey(s, k) {
        var i :| 0 <= i < |s| && s[i].isCurrent && s[i].key == k;
        assert t[i] == s[i];
      }
      if HasKey(s, k) {
        var i :| 0 <= i < |s| && s[i].key == k;
        assert t[i].key == k;
      }
    }
  }

  /** A draft gets in the way of its key as soon as somebody edits the active version. */
  lemma DraftsGetInTheWay<C>(key: string, c: C, open: C -> bool)
    requires open(c)
    ensures exists edits: seq<Edit<C>> :: DraftInTheWay(Run([], edits), key)
  {
    var draft := Version(0, key, 1, false, Draft, c);
    var active := draft.(isCurrent := true, status := Active);
    var create, activate, revise := DoCreate(key, c), DoActivate(0, open), DoRevise(0, None, c);
    RunAppend([], [], create);
    assert Run([], [] + [create]) == [draft];
    RunAppend([], [] + [create], activate);
    CurrentOfFails([draft], 0);
    assert Run([], [] + [create] + [activate]) == [active];
    RunAppend([], [] + [create] + [activate], revise);
    var s := Run([], [] + [create] + [activate] + [revise]);
    assert [active][..0] == [] && Latest([active], 0) == 1;
    assert s == [active, draft.(number := 2)];
    assert s[..1] == [active] && CurrentWithKey([active], key) == Some(0);
    assert s[1].group == 0 && s[1].status == Draft;
  }

  // ----- the store as the services see it

  class Collection<C> {
    var docs: Store<C>

    constructor ()
      ensures docs == []
    {
      docs := [];
    }

    method Create(key: string, content: C) returns (refusal: Option<Refusal>)
      modifies this
      ensures match CreateDraft(old(docs), key, content)
              case Ok(s) => refusal.None? && docs == s
              case Err(e) => refusal == Some(e) && docs == old(docs)
    {
      for i := 0 to |docs|
        invariant forall j :: 0 <= j < i ==> !(docs[j].isCurrent && docs[j].key == key)
      {
        if docs[i].isCurrent && docs[i].key == key { return Some(KeyTaken); }
      }
      docs := docs + [Version(|docs|, key, 1, false, Draft, content)];
      refusal := None;
    }

    method Update(id: nat, key: Option<string>, content: C) returns (refusal: Option<Refusal>)
      modifies this
      ensures match Revise(old(docs), id, key, content)
              case Ok(s) => refusal.None? && docs == s
              case Err(e) => refusal == Some(e) && docs == old(docs)
    {
      if id >= |docs| { return Some(NotFound); }
      var doc := docs[id];
      if key.Some? && key.value != doc.key { return Some(KeyIsFixed); }
      if doc.status == Draft {
        docs := docs[id := doc.(content := content)];
        return None;
      }
      if doc.status == Deactivated { return Some(IsDeactivated); }
      var latest := 0;
      for i := 0 to |docs|
        invariant forall j :: 0 <= j < i ==> !(docs[j].group == doc.group && docs[j].status == Draft)
        invariant latest == Latest(docs[..i], doc.group)
      {
        if docs[i].group == doc.group && docs[i].status == Draft { return Some(DraftIsOpen); }
        assert docs[..i + 1][..i] == docs[..i];
        if docs[i].group == doc.group && docs[i].number > latest { latest := docs[i].number; }
      }
      assert docs[..|docs|] == docs;
      docs := docs + [Version(doc.group, doc.key, latest + 1, false, Draft, content)];
      refusal := None;
    }

    method SaveDraft(id: nat, content: C) returns (refusal: Option<Refusal>)
      modifies this
      ensures match AmendDraft(old(docs), id, content)
              case Ok(s) => refusal.None? && docs == s
              case Err(e) => refusal == Some(e) && docs == old(docs)
    {
      if id >= |docs| { return Some(NotFound); }
      if docs[id].status != Draft { return Some(NotADraft); }
      docs := docs[id := docs[id].(content := content)];
      refusal := None;
    }

    method MakeActive(id: nat, admitted: C -> bool) returns (refusal: Option<Refusal>)
      modifies this
      ensures match Activate(old(docs), id, admitted)
              case Ok(s) => refusal.None? && docs == s
              case Err(e) => refusal == Some(e) && docs == old(docs)
    {
      if id >= |docs| { return Some(NotFound); }
      var doc := docs[id];
      if doc.status == Active { return None; }
      if doc.status == Deactivated { return Some(IsDeactivated); }
      if !admitted(doc.content) { return Some(NotAdmitted); }
      var previous: Option<nat> := None;
      for i := 0 to |docs|
        invariant previous == CurrentOf(docs[..i], doc.group)
      {
        assert docs[..i + 1][..i] == docs[..i];
        if previous.None? && docs[i].group == doc.group && docs[i].isCurrent { previous := Some(i); }
      }
      assert docs[..|docs|] == docs;
      if previous.Some? {
        docs := docs[previous.value := docs[previous.value].(isCurrent := false, status := Deactivated)];
      }
      docs := docs[id := doc.(isCurrent := true, status := Active)];
      refusal := None;
    }

    method Withdraw(id: nat) returns (refusal: Option<Refusal>)
      modifies this
      ensures match Deactivate(old(docs), id)
              case Ok(s) => refusal.None? && docs == s
              case Err(e) => refusal == Some(e) && docs == old(docs)
    {
      if id >= |docs| { return Some(NotFound); }
      if docs[id].status == Deactivated { return None; }
      docs := docs[id := docs[id].(isCurrent := false, status := Deactivated)];
      refusal := None;
    }
  }
}
