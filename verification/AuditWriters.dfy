/**
 * Concurrent writers of the audit log (src/modules/audit/service.ts:72-109): each reads the tail, computes a record and
 * inserts it only if its number is still free; a collision sends it back to the tail, at most three attempts in all.
 * A run is any interleaving of these steps by any number of writers and tenants.
 */
module AuditWriters {
  import opened Prelude
  import opened CanonicalJson
  import opened ObjectIds
  import opened AuditRecords
  import opened AuditChain

  const ATTEMPTS := 3

  /**
   * What a writer stores under a number behind a hash, the hash before the first record, the log an input goes to, and
   * the inputs that can be stored at all.
   */
  datatype Format = Format(
    genesis: string,
    home: Input -> string,
    storable: Input -> bool,
    write: (Input, nat, string) -> Entry)

  /** The record carries its place. */
  ghost predicate Honest(f: Format) {
    forall input, n, prev :: CarriesItsPlace(f, input, n, prev)
  }

  ghost predicate CarriesItsPlace(f: Format, input: Input, n: nat, prev: string) {
    var e := f.write(input, n, prev);
    e.tenant == f.home(input) && e.seqNo == n && e.prevHash == prev
  }

  datatype Slot = Slot(tenant: string, n: nat)

  /** `began` is a history variable: how long the tenant's log was when the write began. */
  datatype Writer =
    | Waiting(input: Input, began: nat, attempt: nat)
    | Ready(input: Input, began: nat, attempt: nat, n: nat, prev: string)
    | Done(input: Input, began: nat, n: nat)
    | Failed(input: Input, began: nat)
    | Refused(input: Input, began: nat)

  /** `author` is a history variable: which writer stored the record. */
  datatype System = System(store: map<Slot, Entry>, author: map<Slot, nat>, writers: map<nat, Writer>)

  datatype Action =
    | Begin(w: nat, input: Input, last: nat)
    | ReadTail(w: nat, last: nat)
    | TryInsert(w: nat)
    | Refuse(w: nat)

  const NO_RECORDS := System(map[], map[], map[])

  /** `last` is the number of the newest record, 0 when there is none. */
  ghost predicate IsTail(store: map<Slot, Entry>, tenant: string, last: nat) {
    && Reaches(store, tenant, last)
    && forall s :: s in store && s.tenant == tenant ==> s.n <= last
  }

  ghost predicate Reaches(store: map<Slot, Entry>, tenant: string, n: nat) {
    n == 0 || Slot(tenant, n) in store
  }

  function PrevHash(f: Format, store: map<Slot, Entry>, s: Slot): string {
    if s.n >= 1 && Slot(s.tenant, s.n - 1) in store then store[Slot(s.tenant, s.n - 1)].hash else f.genesis
  }

  ghost predicate Enabled(f: Format, s: System, a: Action) {
    match a
    case Begin(w, input, last) => w !in s.writers && IsTail(s.store, f.home(input), last)
    case ReadTail(w, last) =>
      && w in s.writers && s.writers[w].Waiting? && f.storable(s.writers[w].input)
      && IsTail(s.store, f.home(s.writers[w].input), last)
    case TryInsert(w) => w in s.writers && s.writers[w].Ready?
    case Refuse(w) => w in s.writers && s.writers[w].Waiting? && !f.storable(s.writers[w].input)
  }

  ghost function Apply(f: Format, s: System, a: Action): System
    requires Enabled(f, s, a)
  {
    match a
    case Refuse(w) => s.(writers := s.writers[w := Refused(s.writers[w].input, s.writers[w].began)])
    case Begin(w, input, last) => s.(writers := s.writers[w := Waiting(input, last, 0)])
    case ReadTail(w, last) =>
      var it := s.writers[w];
      s.(writers := s.writers[w := Ready(it.input, it.began, it.attempt, last + 1,
                                         PrevHash(f, s.store, Slot(f.home(it.input), last + 1)))])
    case TryInsert(w) =>
      var it := s.writers[w];
      var slot := Slot(f.home(it.input), it.n);
      if slot !in s.store then Inserted(f, s, w, it, slot)
      else if it.attempt + 1 == ATTEMPTS then s.(writers := s.writers[w := Failed(it.input, it.began)])
      else s.(writers := s.writers[w := Waiting(it.input, it.began, it.attempt + 1)])
  }

  ghost function Inserted(f: Format, s: System, w: nat, it: Writer, slot: Slot): System
    requires it.Ready?
  {
    System(s.store[slot := f.write(it.input, it.n, it.prev)],
           s.author[slot := w],
           s.writers[w := Done(it.input, it.began, it.n)])
  }

  ghost predicate Possible(f: Format, s: System, run: seq<Action>)
    decreases |run|
  {
    run == [] || (Enabled(f, s, run[0]) && Possible(f, Apply(f, s, run[0]), run[1..]))
  }

  ghost function After(f: Format, s: System, run: seq<Action>): System
    requires Possible(f, s, run)
    decreases |run|
  {
    if run == [] then s else After(f, Apply(f, s, run[0]), run[1..])
  }

  // ----- the invariant

  ghost predicate NumberedAt(store: map<Slot, Entry>, s: Slot) {
    1 <= s.n && Reaches(store, s.tenant, s.n - 1)
  }

  /** No gap below any record. */
  ghost predicate Numbered(store: map<Slot, Entry>) {
    forall s {:trigger NumberedAt(store, s)} :: s in store ==> NumberedAt(store, s)
  }

  /** The record in a slot carries the slot's number and points at the record before it. */
  ghost predicate RowOk(f: Format, store: map<Slot, Entry>, s: Slot)
    requires s in store
  {
    && store[s].tenant == s.tenant
    && store[s].seqNo == s.n
    && store[s].prevHash == PrevHash(f, store, s)
  }

  ghost predicate RowsOk(f: Format, store: map<Slot, Entry>) {
    forall s {:trigger RowOk(f, store, s)} :: s in store ==> RowOk(f, store, s)
  }

  /** The record was stored, as it stands, by its author, whose write is done. */
  ghost predicate Authored(f: Format, s: System, slot: Slot)
    requires slot in s.store && slot in s.author
  {
    && s.author[slot] in s.writers
    && var it := s.writers[s.author[slot]];
       && it.Done?
       && Slot(f.home(it.input), it.n) == slot
       && f.storable(it.input)
       && s.store[slot] == f.write(it.input, slot.n, s.store[slot].prevHash)
  }

  ghost predicate AllAuthored(f: Format, s: System) {
    s.author.Keys == s.store.Keys && forall slot {:trigger Authored(f, s, slot)} :: slot in s.store
                                                                                    ==> Authored(f, s, slot)
  }

  ghost predicate WriterOk(f: Format, s: System, w: nat)
    requires w in s.writers
  {
    var it := s.writers[w];
    var tenant := f.home(it.input);
    && (it.Refused? ==> !f.storable(it.input))
    && (it.Ready? || it.Done? || it.Failed? ==> f.storable(it.input))
    && match it
       case Refused(_, _) => true
       case Waiting(_, began, attempt) => attempt < ATTEMPTS && Reaches(s.store, tenant, began + attempt)
       case Ready(_, began, attempt, n, prev) =>
         && attempt < ATTEMPTS
         && began + attempt < n
         && Reaches(s.store, tenant, n - 1)
         && prev == PrevHash(f, s.store, Slot(tenant, n))
       case Done(_, began, n) => began < n && Slot(tenant, n) in s.author && s.author[Slot(tenant, n)] == w
       case Failed(_, began) => Slot(tenant, began + ATTEMPTS) in s.store
  }

  ghost predicate WritersOk(f: Format, s: System) {
    forall w {:trigger WriterOk(f, s, w)} :: w in s.writers ==> WriterOk(f, s, w)
  }

  ghost predicate Inv(f: Format, s: System) {
    Numbered(s.store) && RowsOk(f, s.store) && AllAuthored(f, s) && WritersOk(f, s)
  }

  // ----- what a run keeps

  lemma {:induction false} NumberedFills(store: map<Slot, Entry>, tenant: string, n: nat, k: nat)
    requires Numbered(store) && Reaches(store, tenant, n) && k <= n
    ensures Reaches(store, tenant, k)
    decreases n
  {
    if k < n {
      assert NumberedAt(store, Slot(tenant, n));
      NumberedFills(store, tenant, n - 1, k);
    }
  }

  /** A step that stores nothing: only writer `w` changed. */
  lemma WriterMoves(f: Format, s: System, w: nat, it: Writer)
    requires Inv(f, s) && (w in s.writers ==> !s.writers[w].Done?) && !it.Done?
    requires var t := s.(writers := s.writers[w := it]); WriterOk(f, t, w)
    ensures Inv(f, s.(writers := s.writers[w := it]))
  {
    var t := s.(writers := s.writers[w := it]);
    forall slot | slot in t.store ensures Authored(f, t, slot) {
      assert Authored(f, s, slot);
    }
    forall v | v in t.writers ensures WriterOk(f, t, v) {
      if v != w {
        assert WriterOk(f, s, v);
      }
    }
  }

  lemma BeginKeepsInv(f: Format, s: System, w: nat, input: Input, last: nat)
    requires Inv(f, s) && Enabled(f, s, Begin(w, input, last))
    ensures Inv(f, Apply(f, s, Begin(w, input, last)))
  {
    WriterMoves(f, s, w, Waiting(input, last, 0));
  }

  lemma ReadKeepsInv(f: Format, s: System, w: nat, last: nat)
    requires Inv(f, s) && Enabled(f, s, ReadTail(w, last))
    ensures Inv(f, Apply(f, s, ReadTail(w, last)))
  {
    var it := s.writers[w];
    assert WriterOk(f, s, w);
    assert it.began + it.attempt <= last;
    WriterMoves(f, s, w,
      Ready(it.input, it.began, it.attempt, last + 1, PrevHash(f, s.store, Slot(f.home(it.input), last + 1))));
  }

  lemma CollisionKeepsInv(f: Format, s: System, w: nat)
    requires Inv(f, s) && Enabled(f, s, TryInsert(w))
    requires Slot(f.home(s.writers[w].input), s.writers[w].n) in s.store
    ensures Inv(f, Apply(f, s, TryInsert(w)))
  {
    var it := s.writers[w];
    assert WriterOk(f, s, w);
    NumberedFills(s.store, f.home(it.input), it.n, it.began + it.attempt + 1);
    if it.attempt + 1 == ATTEMPTS {
      WriterMoves(f, s, w, Failed(it.input, it.began));
    } else {
      WriterMoves(f, s, w, Waiting(it.input, it.began, it.attempt + 1));
    }
  }

  /** Storing in a free slot changes no predecessor of a record, nor of a slot some writer is ready for. */
  lemma PrevHashStays(f: Format, store: map<Slot, Entry>, slot: Slot, e: Entry, s: Slot)
    requires slot !in store && s.n >= 1 && Reaches(store, s.tenant, s.n - 1) && slot.n >= 1
    ensures PrevHash(f, store[slot := e], s) == PrevHash(f, store, s)
  {}

  lemma InsertKeepsRows(f: Format, s: System, w: nat)
    requires Honest(f) && Inv(f, s) && Enabled(f, s, TryInsert(w))
    requires Slot(f.home(s.writers[w].input), s.writers[w].n) !in s.store
    ensures var t := Apply(f, s, TryInsert(w)); Numbered(t.store) && RowsOk(f, t.store)
  {
    var t := Apply(f, s, TryInsert(w));
    var it := s.writers[w];
    var slot := Slot(f.home(it.input), it.n);
    assert WriterOk(f, s, w);
    assert CarriesItsPlace(f, it.input, it.n, it.prev);
    forall r | r in t.store ensures NumberedAt(t.store, r) {
      assert r != slot ==> NumberedAt(s.store, r);
    }
    forall r | r in t.store ensures RowOk(f, t.store, r) {
      assert r != slot ==> RowOk(f, s.store, r) && NumberedAt(s.store, r);
      PrevHashStays(f, s.store, slot, t.store[slot], r);
    }
  }

  lemma InsertKeepsAuthors(f: Format, s: System, w: nat)
    requires Honest(f) && Inv(f, s) && Enabled(f, s, TryInsert(w))
    requires Slot(f.home(s.writers[w].input), s.writers[w].n) !in s.store
    ensures AllAuthored(f, Apply(f, s, TryInsert(w)))
  {
    var t := Apply(f, s, TryInsert(w));
    var it := s.writers[w];
    var slot := Slot(f.home(it.input), it.n);
    assert WriterOk(f, s, w);
    assert CarriesItsPlace(f, it.input, it.n, it.prev);
    forall r | r in t.store ensures Authored(f, t, r) {
      if r != slot {
        assert Authored(f, s, r);
      }
    }
  }

  lemma InsertKeepsWriters(f: Format, s: System, w: nat)
    requires Inv(f, s) && Enabled(f, s, TryInsert(w))
    requires Slot(f.home(s.writers[w].input), s.writers[w].n) !in s.store
    ensures WritersOk(f, Apply(f, s, TryInsert(w)))
  {
    var t := Apply(f, s, TryInsert(w));
    var it := s.writers[w];
    var slot := Slot(f.home(it.input), it.n);
    assert WriterOk(f, s, w);
    forall v | v in t.writers ensures WriterOk(f, t, v) {
      if v != w {
        assert WriterOk(f, s, v);
        var other := s.writers[v];
        if other.Ready? {
          PrevHashStays(f, s.store, slot, t.store[slot], Slot(f.home(other.input), other.n));
        }
      }
    }
  }

  lemma ApplyKeepsInv(f: Format, s: System, a: Action)
    requires Honest(f) && Inv(f, s) && Enabled(f, s, a)
    ensures Inv(f, Apply(f, s, a))
  {
    match a
    case Begin(w, input, last) => BeginKeepsInv(f, s, w, input, last);
    case ReadTail(w, last) => ReadKeepsInv(f, s, w, last);
    case Refuse(w) => WriterMoves(f, s, w, Refused(s.writers[w].input, s.writers[w].began));
    case TryInsert(w) =>
      if Slot(f.home(s.writers[w].input), s.writers[w].n) in s.store {
        CollisionKeepsInv(f, s, w);
      } else {
        InsertKeepsRows(f, s, w);
        InsertKeepsAuthors(f, s, w);
        InsertKeepsWriters(f, s, w);
      }
  }

  /** Nothing stored is ever changed or removed. */
  ghost predicate Extends(s: System, t: System) {
    forall slot :: slot in s.store ==> slot in t.store && t.store[slot] == s.store[slot]
  }

  lemma {:induction false} RunsKeepInv(f: Format, s: System, run: seq<Action>)
    requires Honest(f) && Inv(f, s) && Possible(f, s, run)
    ensures Inv(f, After(f, s, run)) && Extends(s, After(f, s, run))
    decreases |run|
  {
    if run != [] {
      ApplyKeepsInv(f, s, run[0]);
      RunsKeepInv(f, Apply(f, s, run[0]), run[1..]);
      ApplyExtends(f, s, run[0]);
    }
  }

  lemma ApplyExtends(f: Format, s: System, a: Action)
    requires Enabled(f, s, a)
    ensures Extends(s, Apply(f, s, a))
  {}

  // ----- what every run ends with

  lemma NothingStored(f: Format)
    ensures Inv(f, NO_RECORDS)
  {}

  /** A tenant's numbers are exactly 1 to the number of its newest record. */
  lemma LogHasNoGaps(f: Format, s: System, tenant: string, last: nat, k: nat)
    requires Inv(f, s) && IsTail(s.store, tenant, last)
    ensures Slot(tenant, k) in s.store <==> 1 <= k <= last
  {
    if k <= last {
      NumberedFills(s.store, tenant, last, k);
    }
    assert Slot(tenant, k) in s.store ==> NumberedAt(s.store, Slot(tenant, k));
  }

  /** Every acknowledged write is one record of the log, its own, and every record is one acknowledged write. */
  lemma AcknowledgedOnce(f: Format, s: System, w: nat)
    requires Inv(f, s) && w in s.writers && s.writers[w].Done?
    ensures var it := s.writers[w]; var slot := Slot(f.home(it.input), it.n);
            && slot in s.store
            && s.store[slot] == f.write(it.input, it.n, s.store[slot].prevHash)
            && forall v ::
               v in s.writers && s.writers[v].Done? && Slot(f.home(s.writers[v].input), s.writers[v].n) == slot
               ==> v == w
  {
    assert WriterOk(f, s, w);
    var slot := Slot(f.home(s.writers[w].input), s.writers[w].n);
    assert Authored(f, s, slot);
    forall v | v in s.writers && s.writers[v].Done? && Slot(f.home(s.writers[v].input), s.writers[v].n) == slot
      ensures v == w
    {
      assert WriterOk(f, s, v);
    }
  }

  /** Only what cannot be stored is refused, and it is never acknowledged, given up or left ready to be stored. */
  lemma RefusedIfUnstorable(f: Format, s: System, w: nat)
    requires Inv(f, s) && w in s.writers
    ensures s.writers[w].Refused? ==> !f.storable(s.writers[w].input)
    ensures !f.storable(s.writers[w].input) ==> s.writers[w].Waiting? || s.writers[w].Refused?
    ensures forall slot :: slot in s.store && s.author[slot] == w ==> f.storable(s.writers[w].input)
  {
    assert WriterOk(f, s, w);
    forall slot | slot in s.store && s.author[slot] == w ensures f.storable(s.writers[w].input) {
      assert Authored(f, s, slot);
    }
  }

  /** A write is given up only after three others stored a record of the same tenant since it began. */
  lemma GivenUpAfterThreeOthers(f: Format, s: System, w: nat, k: nat)
    requires Inv(f, s) && w in s.writers && s.writers[w].Failed? && 1 <= k <= ATTEMPTS
    ensures var slot := Slot(f.home(s.writers[w].input), s.writers[w].began + k);
            slot in s.store && slot in s.author && s.author[slot] != w
  {
    assert WriterOk(f, s, w);
    var it := s.writers[w];
    NumberedFills(s.store, f.home(it.input), it.began + ATTEMPTS, it.began + k);
    assert Authored(f, s, Slot(f.home(it.input), it.began + k));
  }

  // ----- the stored log verifies

  function AuditFormat(h: Hash): Format {
    Format(Genesis(h),
           (input: Input) => StoredId(input.tenant),
           (input: Input) => Storable(input),
           (input: Input, n: nat, prev: string) => Written(h, input, n, prev))
  }

  lemma AuditFormatIsHonest(h: Hash)
    ensures Honest(AuditFormat(h))
  {}

  /** A tenant's records by ascending number. */
  ghost function Ledger(store: map<Slot, Entry>, tenant: string, last: nat): (log: seq<Entry>)
    requires forall k :: 1 <= k <= last ==> Slot(tenant, k) in store
    ensures |log| == last
  {
    seq(last, i requires 0 <= i < last => store[Slot(tenant, i + 1)])
  }

  ghost function InputOf(f: Format, s: System, slot: Slot): Input
    requires Inv(f, s) && slot in s.store
  {
    assert Authored(f, s, slot);
    s.writers[s.author[slot]].input
  }

  ghost predicate TenantTellsApart(h: Hash, s: System, tenant: string)
    requires Inv(AuditFormat(h), s)
  {
    forall slot :: slot in s.store && slot.tenant == tenant
      ==> TellsApart(h, InputOf(AuditFormat(h), s, slot), s.store[slot])
  }

  ghost predicate ReadBackAt(f: Format, s: System, tenant: string, n: nat)
    requires Inv(f, s) && Slot(tenant, n) in s.store
  {
    ReadsBack(InputOf(f, s, Slot(tenant, n)))
  }

  lemma LinkedWhen(h: Hash, log: seq<Entry>, i: nat)
    requires i < |log| && log[i].seqNo == i + 1
    requires log[i].prevHash == if i == 0 then Genesis(h) else log[i - 1].hash
    ensures Linked(h, log, i) <==> log[i].hash == Recompute(h, log[i])
  {}

  lemma RecordVerifiesIff(h: Hash, s: System, slot: Slot)
    requires Inv(AuditFormat(h), s) && slot in s.store && TenantTellsApart(h, s, slot.tenant)
    ensures s.store[slot].hash == Recompute(h, s.store[slot]) <==> ReadBackAt(AuditFormat(h), s, slot.tenant, slot.n)
  {
    var e := s.store[slot];
    var input := InputOf(AuditFormat(h), s, slot);
    assert Authored(AuditFormat(h), s, slot);
    assert e == Written(h, input, slot.n, e.prevHash);
    assert TellsApart(h, input, e);
    WrittenVerifiesIff(h, input, slot.n, e.prevHash);
  }

  lemma RecordPlace(f: Format, s: System, tenant: string, last: nat, i: nat)
    requires Inv(f, s) && i < last && forall k :: 1 <= k <= last ==> Slot(tenant, k) in s.store
    ensures var log := Ledger(s.store, tenant, last);
            log[i].seqNo == i + 1 && log[i].prevHash == if i == 0 then f.genesis else log[i - 1].hash
  {
    assert NumberedAt(s.store, Slot(tenant, i + 1)) && RowOk(f, s.store, Slot(tenant, i + 1));
    assert i > 0 ==> Slot(tenant, i) in s.store;
    assert i == 0 ==> Slot(tenant, 0) in s.store ==> NumberedAt(s.store, Slot(tenant, 0));
  }

  ghost predicate AllReadBack(f: Format, s: System, tenant: string, last: nat)
    requires Inv(f, s) && forall k :: 1 <= k <= last ==> Slot(tenant, k) in s.store
  {
    forall n :: 1 <= n <= last ==> ReadBackAt(f, s, tenant, n)
  }

  lemma LinkedIffReadBack(h: Hash, s: System, tenant: string, last: nat, i: nat)
    requires Inv(AuditFormat(h), s) && TenantTellsApart(h, s, tenant) && i < last
    requires forall k :: 1 <= k <= last ==> Slot(tenant, k) in s.store
    ensures Linked(h, Ledger(s.store, tenant, last), i) <==> ReadBackAt(AuditFormat(h), s, tenant, i + 1)
  {
    RecordPlace(AuditFormat(h), s, tenant, last, i);
    LinkedWhen(h, Ledger(s.store, tenant, last), i);
    RecordVerifiesIff(h, s, Slot(tenant, i + 1));
  }

  lemma LogIsFilled(f: Format, s: System, tenant: string, last: nat)
    requires Inv(f, s) && IsTail(s.store, tenant, last)
    ensures forall k :: 1 <= k <= last ==> Slot(tenant, k) in s.store
  {
    forall k | 1 <= k <= last ensures Slot(tenant, k) in s.store {
      LogHasNoGaps(f, s, tenant, last, k);
    }
  }

  /** Any run of the audit service, from the empty log: the invariant, and no gap up to a tenant's newest record. */
  lemma AnyRunFillsTheLog(h: Hash, run: seq<Action>, tenant: string, last: nat)
    requires Possible(AuditFormat(h), NO_RECORDS, run)
    requires IsTail(After(AuditFormat(h), NO_RECORDS, run).store, tenant, last)
    ensures Inv(AuditFormat(h), After(AuditFormat(h), NO_RECORDS, run))
    ensures forall k :: 1 <= k <= last ==> Slot(tenant, k) in After(AuditFormat(h), NO_RECORDS, run).store
  {
    AuditFormatIsHonest(h);
    NothingStored(AuditFormat(h));
    RunsKeepInv(AuditFormat(h), NO_RECORDS, run);
    LogIsFilled(AuditFormat(h), After(AuditFormat(h), NO_RECORDS, run), tenant, last);
  }

  ghost predicate PointwiseExact(f: Format, h: Hash, s: System, tenant: string, last: nat)
    requires Inv(f, s) && forall k :: 1 <= k <= last ==> Slot(tenant, k) in s.store
  {
    forall i: nat {:trigger Linked(h, Ledger(s.store, tenant, last), i)} ::
      i < last ==> (Linked(h, Ledger(s.store, tenant, last), i) <==> ReadBackAt(f, s, tenant, i + 1))
  }

  lemma EachLinkedIff(h: Hash, s: System, tenant: string, last: nat)
    requires Inv(AuditFormat(h), s) && TenantTellsApart(h, s, tenant)
    requires forall k :: 1 <= k <= last ==> Slot(tenant, k) in s.store
    ensures PointwiseExact(AuditFormat(h), h, s, tenant, last)
  {
    forall i: nat | i < last
      ensures Linked(h, Ledger(s.store, tenant, last), i) <==> ReadBackAt(AuditFormat(h), s, tenant, i + 1)
    {
      LinkedIffReadBack(h, s, tenant, last, i);
    }
  }

  /** The same for the whole log, with nothing left but the two lists of conditions. */
  lemma ExactThroughout(f: Format, h: Hash, s: System, tenant: string, last: nat)
    requires Inv(f, s) && forall k :: 1 <= k <= last ==> Slot(tenant, k) in s.store
    requires PointwiseExact(f, h, s, tenant, last)
    ensures Good(h, Ledger(s.store, tenant, last)) <==> AllReadBack(f, s, tenant, last)
  {
    var log := Ledger(s.store, tenant, last);
    if AllReadBack(f, s, tenant, last) {
      assert forall i: nat :: i < last ==> Linked(h, log, i);
    } else {
      var n :| 1 <= n <= last && !ReadBackAt(f, s, tenant, n);
      assert !Linked(h, log, n - 1);
    }
  }

  /**
   * Wherever a run has come to, a tenant's log verifies exactly when every write to it spelled its ids as they are read
   * back and gave a payload that is read back whole.
   */
  lemma LogVerifiesIff(h: Hash, s: System, tenant: string, last: nat)
    requires Inv(AuditFormat(h), s) && TenantTellsApart(h, s, tenant)
    requires forall k :: 1 <= k <= last ==> Slot(tenant, k) in s.store
    ensures Good(h, Ledger(s.store, tenant, last)) <==> AllReadBack(AuditFormat(h), s, tenant, last)
  {
    EachLinkedIff(h, s, tenant, last);
    ExactThroughout(AuditFormat(h), h, s, tenant, last);
  }
}
