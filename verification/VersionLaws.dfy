/**
 * What an edit of the versioned store (src/lib/versioned.ts) leaves behind, document by document, and what publishing
 * under a key leaves: which version is current afterwards, with which content, and that no other key is touched.
 */
module VersionLaws {
  import opened Prelude
  import opened Versions

  // ----- single edits

  /** Nothing but a new draft at the end. */
  ghost predicate AddsDraft<C>(s: Store<C>, t: Store<C>, key: string, content: C) {
    && |t| == |s| + 1 && t[..|s|] == s
    && t[|s|].key == key && t[|s|].content == content && t[|s|].status == Draft && !t[|s|].isCurrent
  }

  /** Nothing but document `id` differs. */
  ghost predicate OnlyAt<C>(s: Store<C>, t: Store<C>, id: nat) {
    id < |s| == |t| && forall i :: 0 <= i < |s| && i != id ==> t[i] == s[i]
  }

  ghost predicate OpenDraft<C>(s: Store<C>, group: nat, i: nat) {
    i < |s| && s[i].group == group && s[i].status == Draft
  }

  /** A key that no current document has begins a new group. */
  lemma CreateMeans<C>(s: Store<C>, key: string, content: C)
    requires Sound(s)
    ensures match Apply(s, DoCreate(key, content))
            case Ok(t) =>
              && (forall i :: 0 <= i < |s| && s[i].isCurrent ==> s[i].key != key)
              && AddsDraft(s, t, key, content) && t[|s|].number == 1
              && forall i :: 0 <= i < |s| ==> t[i].group != t[|s|].group
            case Err(why) => why == KeyTaken && exists i :: 0 <= i < |s| && s[i].isCurrent && s[i].key == key
  {
    forall i | 0 <= i < |s| ensures s[i].group != |s| { assert WellPlaced(s, i); }
  }

  /** A draft takes the new content; of an active version the content makes the next draft of its group. */
  lemma ReviseMeans<C>(s: Store<C>, id: nat, newKey: Option<string>, content: C)
    requires Sound(s)
    ensures match Apply(s, DoRevise(id, newKey, content))
            case Ok(t) =>
              && id < |s| && (newKey == None || newKey == Some(s[id].key)) && s[id].status != Deactivated
              && (s[id].status == Draft ==> OnlyAt(s, t, id) && t[id] == s[id].(content := content))
              && (s[id].status == Active ==>
                    && AddsDraft(s, t, s[id].key, content) && t[|s|].group == s[id].group
                    && (forall i :: !OpenDraft(s, s[id].group, i))
                    && forall i :: 0 <= i < |s| && s[i].group == s[id].group ==> s[i].number < t[|s|].number)
            case Err(why) =>
              && (why == NotFound <==> id >= |s|)
              && (why == KeyIsFixed <==> id < |s| && newKey.Some? && newKey != Some(s[id].key))
              && (why == IsDeactivated ==> s[id].status == Deactivated)
              && (why == DraftIsOpen ==> s[id].status == Active && exists i :: OpenDraft(s, s[id].group, i))
              && why in {NotFound, KeyIsFixed, IsDeactivated, DraftIsOpen}
  {
    if id < |s| && s[id].status == Active {
      if HasDraft(s, s[id].group) {
        var i :| 0 <= i < |s| && s[i].group == s[id].group && s[i].status == Draft;
        assert OpenDraft(s, s[id].group, i);
      } else {
        forall i | 0 <= i < |s| && s[i].group == s[id].group ensures s[i].number <= Latest(s, s[id].group) {
          LatestIsLast(s, s[id].group, i);
        }
      }
    }
  }

  lemma {:induction false} LatestIsLast<C>(s: Store<C>, group: nat, i: nat)
    requires i < |s| && s[i].group == group
    ensures s[i].number <= Latest(s, group)
  {
    if i < |s| - 1 {
      LatestIsLast(s[..|s| - 1], group, i);
    }
  }

  /** Only a draft is amended, and in nothing but its content. */
  lemma AmendMeans<C>(s: Store<C>, id: nat, content: C)
    ensures match Apply(s, DoAmend(id, content))
            case Ok(t) =>
              && id < |s| && s[id].status == Draft && OnlyAt(s, t, id) && t[id] == s[id].(content := content)
            case Err(why) => if id >= |s| then why == NotFound else why == NotADraft && s[id].status != Draft
  {}

  /** An admitted draft becomes the current version of its group, and the version that was current is deactivated. */
  lemma ActivateMeans<C>(s: Store<C>, id: nat, admitted: C -> bool)
    requires Sound(s)
    ensures match Apply(s, DoActivate(id, admitted))
            case Ok(t) =>
              && id < |s| == |t| && s[id].status != Deactivated && (s[id].status == Active ==> t == s)
              && (s[id].status == Draft ==> admitted(s[id].content))
              && t[id] == s[id].(isCurrent := true, status := Active)
              && forall i :: 0 <= i < |s| && i != id ==>
                   t[i] == if s[i].group == s[id].group && s[i].isCurrent
                           then s[i].(isCurrent := false, status := Deactivated) else s[i]
            case Err(why) =>
              && (why == NotFound <==> id >= |s|)
              && (why == IsDeactivated <==> id < |s| && s[id].status == Deactivated)
              && (why == NotAdmitted <==> id < |s| && s[id].status == Draft && !admitted(s[id].content))
              && why in {NotFound, IsDeactivated, NotAdmitted}
  {
    if id < |s| {
      assert WellPlaced(s, id);
      CurrentOfFails(s, s[id].group);
      forall i, j | 0 <= i < |s| && 0 <= j < |s| && i != j && s[i].group == s[j].group && s[i].isCurrent
        ensures !s[j].isCurrent
      {
        assert if i < j then Compatible(s[i], s[j]) else Compatible(s[j], s[i]);
      }
    }
  }

  lemma DeactivateMeans<C>(s: Store<C>, id: nat)
    requires Sound(s)
    ensures match Apply(s, DoDeactivate(id))
            case Ok(t) => OnlyAt(s, t, id) && t[id] == s[id].(isCurrent := false, status := Deactivated)
            case Err(why) => why == NotFound && id >= |s|
  {
    if id < |s| {
      assert WellPlaced(s, id);
    }
  }

  // ----- publishing

  predicate FirstCurrent<C>(s: Store<C>, key: string, c: nat) {
    c < |s| && s[c].isCurrent && s[c].key == key && forall i :: 0 <= i < c && s[i].key == key ==> !s[i].isCurrent
  }

  lemma {:induction false} CurrentIsFirst<C>(s: Store<C>, key: string, c: nat)
    ensures CurrentWithKey(s, key) == Some(c) <==> FirstCurrent(s, key, c)
  {
    if s != [] {
      var before := s[..|s| - 1];
      CurrentIsFirst(before, key, c);
      CurrentWithKeyFails(before, key);
      if CurrentWithKey(before, key).Some? && c == |s| - 1 {
        var b := CurrentWithKey(before, key).value;
        assert s[b] == before[b];
      }
      if CurrentWithKey(before, key).None? {
        forall i | 0 <= i < |before| && s[i].key == key ensures !s[i].isCurrent { assert before[i] == s[i]; }
      }
    }
  }

  /** Nothing with this key differs, and nothing with it is new. */
  ghost predicate Untouched<C>(s: Store<C>, t: Store<C>, key: string) {
    && |s| <= |t| && (forall i :: 0 <= i < |s| ==> t[i].key == s[i].key && (s[i].key == key ==> t[i] == s[i]))
    && forall i :: |s| <= i < |t| ==> t[i].key != key
  }

  /** Document `n` alone is new with this key, and is the current version of the group that had the key. */
  ghost predicate NewVersion<C>(s: Store<C>, t: Store<C>, key: string, content: C, n: nat) {
    && |s| <= n < |t|
    && t[n].key == key && t[n].isCurrent && t[n].status == Active && t[n].content == content
    && (forall i :: |s| <= i < |t| && t[i].key == key ==> i == n)
    && forall c: nat :: FirstCurrent(s, key, c) ==> t[n].group == s[c].group
  }

  /** This content now stands under the key, as a new version; the one that stood there before is deactivated. */
  ghost predicate Stands<C>(s: Store<C>, t: Store<C>, key: string, content: C) {
    && |s| <= |t| && (forall i :: 0 <= i < |s| ==> t[i].key == s[i].key)
    && (forall i :: 0 <= i < |s| && s[i].key == key ==>
          t[i] == if FirstCurrent(s, key, i) then s[i].(isCurrent := false, status := Deactivated) else s[i])
    && exists n: nat :: NewVersion(s, t, key, content, n)
  }

  lemma PublishStands<C>(s: Store<C>, key: string, content: C, admitted: bool)
    requires Sound(s) && Publish(s, key, content, admitted).Ok?
    ensures var t := Publish(s, key, content, admitted).value;
            Sound(t) && Stands(s, t, key, content) && forall k :: k != key ==> Untouched(s, t, k)
  {
    PublishIsTwoEdits(s, key, content, admitted);
    PublishTouches(s, key, content, admitted);
    var current := CurrentWithKey(s, key);
    var first := if current.Some? then DoRevise(current.value, Some(key), content) else DoCreate(key, content);
    var edited := Apply(s, first).value;
    ActivateMeans(edited, |s|, (c: C) => admitted);
    CurrentWithKeyFails(s, key);
    forall c: nat ensures FirstCurrent(s, key, c) <==> current == Some(c) { CurrentIsFirst(s, key, c); }
    if current.Some? {
      CurrentIsActive(s, key);
      ReviseMeans(s, current.value, Some(key), content);
      ReplacesCurrent(s, edited, current.value);
    } else {
      CreateMeans(s, key, content);
    }
    assert NewVersion(s, Publish(s, key, content, admitted).value, key, content, |s|);
  }

  /** In the group of a current document nothing else is current. */
  lemma ReplacesCurrent<C>(s: Store<C>, t: Store<C>, c: nat)
    requires Sound(t) && |t| == |s| + 1 && t[..|s|] == s && c < |s| && s[c].isCurrent
    ensures forall i :: 0 <= i < |s| && s[i].group == s[c].group && s[i].isCurrent ==> i == c
  {
    forall i | 0 <= i < |s| && s[i].group == s[c].group && s[i].isCurrent ensures i == c {
      assert t[i] == s[i] && t[c] == s[c];
      assert i < c ==> Compatible(t[i], t[c]);
      assert c < i ==> Compatible(t[c], t[i]);
    }
  }

  lemma UntouchedTwice<C>(s: Store<C>, t: Store<C>, u: Store<C>, key: string)
    requires Untouched(s, t, key) && Untouched(t, u, key)
    ensures Untouched(s, u, key)
  {}

  lemma StandsUntouched<C>(s: Store<C>, t: Store<C>, u: Store<C>, key: string, content: C)
    requires Stands(s, t, key, content) && Untouched(t, u, key)
    ensures Stands(s, u, key, content)
  {
    var n: nat :| NewVersion(s, t, key, content, n);
    assert NewVersion(s, u, key, content, n);
  }

  lemma UntouchedStands<C>(s: Store<C>, t: Store<C>, u: Store<C>, key: string, content: C)
    requires Untouched(s, t, key) && Stands(t, u, key, content)
    ensures Stands(s, u, key, content)
  {
    forall c: nat ensures FirstCurrent(s, key, c) <==> FirstCurrent(t, key, c) {}
    var n: nat :| NewVersion(t, u, key, content, n);
    assert NewVersion(s, u, key, content, n);
  }

  // ----- publishing one row after another

  datatype Row<+C> = Row(key: string, content: C)

  ghost predicate OncePerKey<C>(rows: seq<Row<C>>) {
    forall i, j :: 0 <= i < j < |rows| ==> rows[i].key != rows[j].key
  }

  predicate HasRow<C>(rows: seq<Row<C>>, key: string) {
    exists i :: 0 <= i < |rows| && rows[i].key == key
  }

  /** Every row stands, and nothing under other keys is touched. */
  ghost predicate AllStand<C>(s: Store<C>, t: Store<C>, rows: seq<Row<C>>) {
    && (forall r :: r in rows ==> Stands(s, t, r.key, r.content))
    && (forall k :: !HasRow(rows, k) ==> Untouched(s, t, k))
  }

  lemma OneMoreStands<C>(s: Store<C>, t: Store<C>, u: Store<C>, rows: seq<Row<C>>, last: Row<C>)
    requires AllStand(s, t, rows) && !HasRow(rows, last.key)
    requires Stands(t, u, last.key, last.content) && forall k :: k != last.key ==> Untouched(t, u, k)
    ensures AllStand(s, u, rows + [last])
  {
    assert (rows + [last])[|rows|] == last;
    forall r | r in rows + [last] ensures Stands(s, u, r.key, r.content) {
      if r in rows {
        StandsUntouched(s, t, u, r.key, r.content);
      } else {
        UntouchedStands(s, t, u, r.key, r.content);
      }
    }
    forall k | !HasRow(rows + [last], k) ensures Untouched(s, u, k) {
      assert forall i :: 0 <= i < |rows| ==> (rows + [last])[i] == rows[i];
      UntouchedTwice(s, t, u, k);
    }
  }

  lemma NoneStand<C>(s: Store<C>)
    ensures AllStand(s, s, [])
  {}
}
