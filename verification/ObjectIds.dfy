/** Object ids of the database as texts: what is taken for an id, and how an id reads once it is stored. */
module ObjectIds {
  const ID_LENGTH := 24

  predicate IsHex(c: char) {
    '0' <= c <= '9' || 'a' <= c <= 'f'
  }

  predicate IsIdChar(c: char) {
    IsHex(c) || 'A' <= c <= 'F'
  }

  /** Text the database takes for an object id: 24 hexadecimal digits in either case. */
  predicate Castable(id: string) {
    |id| == ID_LENGTH && forall i :: 0 <= i < |id| ==> IsIdChar(id[i])
  }

  function Lower(c: char): char {
    if 'A' <= c <= 'F' then (c as int - 'A' as int + 'a' as int) as char else c
  }

  /** An object id read back as text: the digits are lower-case. */
  function StoredId(id: string): (stored: string)
    ensures |stored| == |id|
  {
    seq(|id|, i requires 0 <= i < |id| => Lower(id[i]))
  }

  predicate IsStoredId(id: string) {
    Castable(id) && StoredId(id) == id
  }

  /** An object id, as the text it reads as. */
  type ObjectId = id: string | IsStoredId(id) witness "000000000000000000000000"

  lemma StoredIdIsStored(id: string)
    requires Castable(id)
    ensures IsStoredId(StoredId(id))
  {}

  function ToObjectId(id: string): ObjectId
    requires Castable(id)
  {
    StoredIdIsStored(id);
    StoredId(id)
  }

  function Upper(c: char): char {
    if 'a' <= c <= 'f' then (c as int - 'a' as int + 'A' as int) as char else c
  }

  function UpperId(id: string): (upper: string)
    ensures |upper| == |id|
  {
    seq(|id|, i requires 0 <= i < |id| => Upper(id[i]))
  }

  predicate HasLetter(id: string) {
    exists i :: 0 <= i < |id| && 'a' <= id[i] <= 'f'
  }

  /** An id in either case is stored as the same id; only one without letters is spelled the same. */
  lemma UpperIdIsStoredLower(id: string)
    requires IsStoredId(id)
    ensures Castable(UpperId(id)) && StoredId(UpperId(id)) == id
    ensures UpperId(id) == id <==> !HasLetter(id)
  {
    forall i | 0 <= i < |id| ensures IsHex(id[i]) {
      assert Lower(id[i]) == StoredId(id)[i];
    }
    if HasLetter(id) {
      var i :| 0 <= i < |id| && 'a' <= id[i] <= 'f';
      assert UpperId(id)[i] != id[i];
    }
  }
}
