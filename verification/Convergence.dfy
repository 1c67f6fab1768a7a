/** The index agrees with the tables, over every interleaving of the projection. */
module Convergence {
  import opened Leases
  import opened OutboxLifecycle
  import opened MailData
  import opened MessageProcessing
  import opened Projection

  // --- the invariant --------------------------------------------------------------------

  ghost predicate Ledger(s: State) {
    && Valid(s.db) && |s.rows| == |s.db.events|
    && (forall id :: id in s.db.messages ==>
          (id, VersionOf(s.db, id)) in s.past && s.past[(id, VersionOf(s.db, id))] == s.db.messages[id])
    && (forall k :: k in s.past ==> k.0 in s.db.messages && k.1 <= VersionOf(s.db, k.0))
    && StoredVersionsArePositive(s.db)
  }

  ghost predicate StoredVersionsArePositive(db: Db) {
    forall id :: id in db.messages ==> db.messages[id].version >= 1
  }

  ghost predicate RowsConsistent(c: Config, s: State) {
    && (forall e :: 0 <= e < |s.rows| ==> Consistent(s.rows[e], c.maxAttempts))
    && (forall k :: k in s.claims ==> k.0 < |s.rows| && k.1 in s.rows[k.0].seen)
  }

  /** A row someone read for an event of message id at version v. */
  ghost predicate SoundRow(s: State, id: MessageId, v: nat, row: Row) {
    && v <= row.version <= VersionOf(s.db, id)
    && (id, row.version) in s.past && s.past[(id, row.version)] == row
    && (VersionOf(s.db, id) == v ==> id in s.db.messages && row == s.db.messages[id])
  }

  /** Whatever was read for the current version is still what the tables say. */
  ghost predicate SoundPhase(s: State, id: MessageId, v: nat, p: Phase) {
    var now := VersionOf(s.db, id) == v;
    match p
    case Claimed => true
    case ReadRow(row) => SoundRow(s, id, v, row)
    case ReadParticipants(row, bags) => SoundRow(s, id, v, row) && (now ==> bags == BagsOf(s.db, id))
    case Loaded(row, d) =>
      && SoundRow(s, id, v, row)
      && d == BuildDocument(id, row, d.participants, d.folders)
      && (now ==> d.participants == BagsOf(s.db, id) && d.folders == Folders(s.db, id))
    case Indexed(row) => SoundRow(s, id, v, row) && id in s.index && v <= s.index[id].external
    case Enqueued(row) => SoundRow(s, id, v, row) && id in s.index && v <= s.index[id].external
    case EnqueueFailed => true
  }

  ghost predicate ClaimsSound(s: State) {
    forall k :: k in s.claims ==>
      k.0 < |s.db.events| && SoundPhase(s, s.db.events[k.0].message, s.db.events[k.0].version, s.claims[k])
  }

  /** A vector computed from the row that its version had. */
  ghost predicate SoundVector(s: State, id: MessageId, vector: Vector) {
    && vector.version <= VersionOf(s.db, id)
    && (id, vector.version) in s.past
    && vector.input == InputOf(vector.writer, s.past[(id, vector.version)])
  }

  /** A document on its way to the index is one that was loaded for an event of its version. */
  ghost predicate SoundWrite(s: State, d: Document, v: nat) {
    && (d.id, d.version) in s.past
    && SoundPhase(s, d.id, v, Loaded(s.past[(d.id, d.version)], d))
  }

  ghost predicate SoundEntry(s: State, id: MessageId, entry: Entry) {
    && id in s.db.messages && id in s.db.participants
    && entry.external <= entry.source.version <= VersionOf(s.db, id)
    && entry.source.id == id
    && (id, entry.source.version) in s.past
    && entry.source == BuildDocument(id, s.past[(id, entry.source.version)], entry.source.participants,
                                     entry.source.folders)
    && (entry.external == VersionOf(s.db, id) ==> entry.source == Projected(s.db, id))
    && (entry.vector.Some? ==>
          && entry.source.version <= entry.vector.value.version
          && SoundVector(s, id, entry.vector.value))
  }

  function JobVector(jobs: map<(MessageId, nat), Job>, k: (MessageId, nat)): Vector
    requires k in jobs
  {
    Vector(k.1, jobs[k].input, Live)
  }

  function ReadingVector(reading: Reading): Vector {
    Vector(reading.version, reading.input, Backfill)
  }

  ghost predicate JobsSound(s: State) {
    && (forall k :: k in s.jobs ==> SoundVector(s, k.0, JobVector(s.jobs, k)))
    && (forall r :: r in s.readings ==> SoundVector(s, r.message, ReadingVector(r)))
  }

  ghost predicate WritesSound(s: State) {
    forall w :: w in s.inFlight ==> w.0.id in s.db.messages && SoundWrite(s, w.0, w.1)
  }

  ghost predicate EntriesSound(s: State) {
    forall id :: id in s.index ==> SoundEntry(s, id, s.index[id])
  }

  /** A finished event has reached the index. */
  ghost predicate DoneIsIndexed(s: State) {
    forall e :: 0 <= e < |s.rows| && e < |s.db.events| && s.rows[e].row.payload.status.Done? ==>
      s.db.events[e].message in s.index && s.db.events[e].version <= s.index[s.db.events[e].message].external
  }

  ghost predicate Inv(c: Config, s: State) {
    && Ledger(s) && RowsConsistent(c, s) && ClaimsSound(s) && JobsSound(s) && WritesSound(s)
    && EntriesSound(s) && DoneIsIndexed(s)
  }

  // --- mutations ------------------------------------------------------------------------

  lemma {:induction false} EventsAreAppended(db: Db, cs: seq<Change>)
    ensures db.events <= ApplyAll(db, cs).events
  {
    hide PatchFields, PatchBags;
    if cs != [] {
      EventsAreAppended(db, cs[..|cs| - 1]);
    }
  }

  /** An event was announced no later than the current version of its message. */
  lemma EventsArePast(db: Db, e: nat)
    requires Valid(db) && e < |db.events|
    ensures db.events[e].message in db.messages && db.events[e].message in db.participants
    ensures 1 <= db.events[e].version <= VersionOf(db, db.events[e].message)
  {
    AnnouncedEarlier(db.events, e);
    UpToCounts(VersionOf(db, db.events[e].message));
  }

  ghost predicate Keeps(a: Db, b: Db, id: MessageId) {
    id in a.messages ==>
      && id in a.participants && id in b.messages && id in b.participants
      && VersionOf(a, id) <= VersionOf(b, id)
      && (VersionOf(a, id) == VersionOf(b, id) ==> Projected(b, id) == Projected(a, id))
  }

  /** The tables moved on, history and the external versions only grew. */
  ghost predicate Advances(s: State, t: State) {
    && (forall id :: Keeps(s.db, t.db, id))
    && (forall k :: k in s.past ==> k in t.past && t.past[k] == s.past[k])
    && (forall id :: id in s.index ==> id in t.index && s.index[id].external <= t.index[id].external)
  }

  lemma AdvanceKeepsPhase(s: State, t: State, id: MessageId, v: nat, p: Phase)
    requires Advances(s, t) && id in s.db.messages && SoundPhase(s, id, v, p)
    ensures SoundPhase(t, id, v, p)
  {
    assert Keeps(s.db, t.db, id);
  }

  lemma AdvanceKeepsVector(s: State, t: State, id: MessageId, vector: Vector)
    requires Advances(s, t) && SoundVector(s, id, vector)
    ensures SoundVector(t, id, vector)
  {
    assert Keeps(s.db, t.db, id);
  }

  lemma AdvanceKeepsWrite(s: State, t: State, d: Document, v: nat)
    requires Advances(s, t) && d.id in s.db.messages && SoundWrite(s, d, v)
    ensures d.id in t.db.messages && SoundWrite(t, d, v)
  {
    hide SoundPhase;
    assert Keeps(s.db, t.db, d.id);
    AdvanceKeepsPhase(s, t, d.id, v, Loaded(s.past[(d.id, d.version)], d));
  }

  lemma AdvanceKeepsEntry(s: State, t: State, id: MessageId, entry: Entry)
    requires Advances(s, t) && SoundEntry(s, id, entry)
    ensures SoundEntry(t, id, entry)
  {
    hide SoundVector;
    assert Keeps(s.db, t.db, id);
    if entry.vector.Some? {
      AdvanceKeepsVector(s, t, id, entry.vector.value);
    }
  }

  /** One stored row decides a whole version of a message. */
  lemma TablesAdvance(db: Db, changes: seq<Change>, id: MessageId)
    requires Valid(db)
    ensures Keeps(db, ApplyAll(db, changes), id)
  {
    hide ApplyAll, Folders;
    if id in db.messages {
      ContentIsAFunctionOfVersion(db, changes, id);
    }
  }

  lemma RowsNowAt(db: Db, k: (MessageId, nat))
    ensures k in RowsNow(db) <==> k.0 in db.messages && db.messages[k.0].version == k.1
    ensures k in RowsNow(db) ==> RowsNow(db)[k] == db.messages[k.0]
  {
    assert k == (k.0, k.1);
  }

  lemma HistoryGrows(s: State, t: State)
    requires Ledger(s) && (forall id :: Keeps(s.db, t.db, id)) && t.past == s.past + RowsNow(t.db)
    ensures forall k :: k in s.past ==> k in t.past && t.past[k] == s.past[k]
    ensures forall k :: k in t.past ==> k.0 in t.db.messages && k.1 <= VersionOf(t.db, k.0)
    ensures forall id :: id in t.db.messages ==>
              (id, VersionOf(t.db, id)) in t.past && t.past[(id, VersionOf(t.db, id))] == t.db.messages[id]
  {
    hide Valid, Folders, RowsNow;
    forall k | k in t.past ensures k.0 in t.db.messages && k.1 <= VersionOf(t.db, k.0)
      ensures k in s.past ==> t.past[k] == s.past[k]
    {
      RowsNowAt(t.db, k);
      assert Keeps(s.db, t.db, k.0);
    }
    forall id | id in t.db.messages
      ensures (id, VersionOf(t.db, id)) in t.past && t.past[(id, VersionOf(t.db, id))] == t.db.messages[id]
    {
      RowsNowAt(t.db, (id, VersionOf(t.db, id)));
    }
  }

  lemma MutationGrowsHistory(s: State, changes: seq<Change>, now: Time)
    requires Ledger(s)
    ensures var t := Mutated(s, ApplyAll(s.db, changes), now);
            && Advances(s, t)
            && (forall id :: id in t.db.messages ==>
                  (id, VersionOf(t.db, id)) in t.past && t.past[(id, VersionOf(t.db, id))] == t.db.messages[id])
            && (forall k :: k in t.past ==> k.0 in t.db.messages && k.1 <= VersionOf(t.db, k.0))
  {
    hide ApplyAll, Valid, Keeps, RowsNow, VersionOf, FreshRows;
    var t := Mutated(s, ApplyAll(s.db, changes), now);
    LedgerHolds(s.db, changes);
    forall id ensures Keeps(s.db, t.db, id) {
      TablesAdvance(s.db, changes, id);
    }
    HistoryGrows(s, t);
  }

  lemma MutationAdvances(s: State, changes: seq<Change>, now: Time)
    requires Ledger(s)
    ensures var t := Mutated(s, ApplyAll(s.db, changes), now);
            Advances(s, t) && Ledger(t) && s.db.events <= t.db.events
            && t.rows == s.rows + FreshRows(|t.db.events| - |s.db.events|, now)
  {
    hide ApplyAll, Valid, Advances, RowsNow, VersionOf, StoredVersionsArePositive;
    LedgerIsValid(s);
    LedgerHolds(s.db, changes);
    EventsAreAppended(s.db, changes);
    VersionsStayPositive(s.db, changes);
    MutationGrowsHistory(s, changes, now);
  }

  lemma {:induction false} VersionsStayPositive(db: Db, cs: seq<Change>)
    requires Valid(db) && StoredVersionsArePositive(db)
    ensures StoredVersionsArePositive(ApplyAll(db, cs))
  {
    hide ApplyChange, Valid;
    if cs != [] {
      var n := |cs| - 1;
      var front := ApplyAll(db, cs[..n]);
      VersionsStayPositive(db, cs[..n]);
      LedgerHolds(db, cs[..n]);
      forall id | id in ApplyChange(front, cs[n]).messages ensures ApplyChange(front, cs[n]).messages[id].version >= 1 {
        if id in front.messages {
          ChangeBumpsIffContentChanges(front, cs[n], id);
        } else {
          CreationIsAnnounced(front, cs[n], id);
        }
      }
    }
  }

  lemma ValidMatchesKeys(db: Db)
    requires Valid(db)
    ensures forall id :: id in db.messages <==> id in db.participants
  {
  }

  lemma AdvanceKeepsClaims(s: State, t: State)
    requires Advances(s, t) && Valid(s.db) && ClaimsSound(s) && s.db.events <= t.db.events && s.claims == t.claims
    ensures ClaimsSound(t)
  {
    hide Advances, SoundPhase, Valid;
    forall k | k in t.claims
      ensures k.0 < |t.db.events| && SoundPhase(t, t.db.events[k.0].message, t.db.events[k.0].version, t.claims[k])
    {
      EventsArePast(s.db, k.0);
      AdvanceKeepsPhase(s, t, s.db.events[k.0].message, s.db.events[k.0].version, s.claims[k]);
    }
  }

  lemma LedgerIsValid(s: State)
    requires Ledger(s)
    ensures Valid(s.db) && |s.rows| == |s.db.events|
  {
  }

  lemma MutationKeepsInv(c: Config, s: State, changes: seq<Change>, now: Time)
    requires Inv(c, s)
    ensures Inv(c, Next(c, s, Mutate(changes, now)))
  {
    hide ApplyAll, Advances, Ledger, ClaimsSound, JobsSound, WritesSound, EntriesSound, RowsNow, Consistent;
    var t := Next(c, s, Mutate(changes, now));
    MutationAdvances(s, changes, now);
    RowsStayConsistent(c, s, Mutate(changes, now));
    LedgerIsValid(s);
    AdvanceKeepsClaims(s, t);
    AdvanceKeepsIndex(s, t);
  }

  lemma AdvanceKeepsIndex(s: State, t: State)
    requires Advances(s, t) && s.db.events <= t.db.events && JobsSound(s) && WritesSound(s) && EntriesSound(s)
    ensures s.jobs == t.jobs && s.readings == t.readings ==> JobsSound(t)
    ensures s.inFlight == t.inFlight ==> WritesSound(t)
    ensures s.index == t.index ==> EntriesSound(t)
  {
    hide Advances, SoundVector, SoundWrite, SoundEntry;
    forall k | k in s.jobs ensures SoundVector(t, k.0, JobVector(s.jobs, k)) {
      AdvanceKeepsVector(s, t, k.0, JobVector(s.jobs, k));
    }
    forall r | r in s.readings ensures SoundVector(t, r.message, ReadingVector(r)) {
      AdvanceKeepsVector(s, t, r.message, ReadingVector(r));
    }
    forall w | w in s.inFlight ensures w.0.id in t.db.messages && SoundWrite(t, w.0, w.1) {
      AdvanceKeepsWrite(s, t, w.0, w.1);
    }
    forall id | id in s.index ensures SoundEntry(t, id, s.index[id]) {
      AdvanceKeepsEntry(s, t, id, s.index[id]);
    }
  }

  // --- worker steps ---------------------------------------------------------------------

  /** The tables stood still and the index only grew. */
  ghost predicate Rests(s: State, t: State) {
    && t.db == s.db && t.past == s.past && |t.rows| == |s.rows|
    && (forall id :: id in s.index ==> id in t.index && s.index[id].external <= t.index[id].external)
  }

  lemma RestAdvances(s: State, t: State)
    requires Ledger(s) && Rests(s, t)
    ensures Advances(s, t) && Ledger(t)
  {
    hide Folders;
    ValidMatchesKeys(s.db);
  }

  lemma OneClaimMoved(s: State, t: State, k: (nat, nat))
    requires Ledger(s) && Rests(s, t) && ClaimsSound(s)
    requires forall j :: j in t.claims && j != k ==> j in s.claims && t.claims[j] == s.claims[j]
    requires k in t.claims ==>
               k.0 < |t.db.events| && SoundPhase(t, t.db.events[k.0].message, t.db.events[k.0].version, t.claims[k])
    ensures ClaimsSound(t)
  {
    hide Advances, SoundPhase, Valid;
    RestAdvances(s, t);
    forall j | j in t.claims
      ensures j.0 < |t.db.events| && SoundPhase(t, t.db.events[j.0].message, t.db.events[j.0].version, t.claims[j])
    {
      if j != k {
        EventsArePast(s.db, j.0);
        AdvanceKeepsPhase(s, t, s.db.events[j.0].message, s.db.events[j.0].version, s.claims[j]);
      }
    }
  }

  predicate Reads(step: Step) {
    step.LoadRow? || step.LoadParticipants? || step.LoadMemberships? || step.Crash?
  }

  lemma RowIsSound(c: Config, s: State, k: (nat, nat))
    requires Ledger(s) && Enabled(c, s, LoadRow(k))
    ensures var t := Next(c, s, LoadRow(k));
            SoundPhase(t, s.db.events[k.0].message, s.db.events[k.0].version, t.claims[k])
  {
    hide Folders;
    EventsArePast(s.db, k.0);
  }

  lemma ParticipantsAreSound(c: Config, s: State, k: (nat, nat))
    requires Ledger(s) && ClaimsSound(s) && Enabled(c, s, LoadParticipants(k))
    ensures var t := Next(c, s, LoadParticipants(k));
            SoundPhase(t, s.db.events[k.0].message, s.db.events[k.0].version, t.claims[k])
  {
    hide Valid, Folders;
    assert SoundPhase(s, s.db.events[k.0].message, s.db.events[k.0].version, s.claims[k]);
  }

  lemma DocumentIsSound(c: Config, s: State, k: (nat, nat))
    requires Ledger(s) && ClaimsSound(s) && Enabled(c, s, LoadMemberships(k))
    ensures var t := Next(c, s, LoadMemberships(k));
            SoundPhase(t, s.db.events[k.0].message, s.db.events[k.0].version, t.claims[k])
  {
    hide Valid, Folders;
    assert SoundPhase(s, s.db.events[k.0].message, s.db.events[k.0].version, s.claims[k]);
  }

  lemma ReadsStaySound(c: Config, s: State, step: Step)
    requires Ledger(s) && ClaimsSound(s) && Enabled(c, s, step) && Reads(step)
    ensures ClaimsSound(Next(c, s, step))
  {
    hide Ledger, SoundPhase, ClaimsSound, Folders;
    match step
    case LoadRow(k) => RowIsSound(c, s, k); OneClaimMoved(s, Next(c, s, step), k);
    case LoadParticipants(k) => ParticipantsAreSound(c, s, k); OneClaimMoved(s, Next(c, s, step), k);
    case LoadMemberships(k) => DocumentIsSound(c, s, k); OneClaimMoved(s, Next(c, s, step), k);
    case Crash(k) => OneClaimMoved(s, Next(c, s, step), k);
  }

  lemma IndexedIsSound(c: Config, s: State, k: (nat, nat))
    requires Ledger(s) && ClaimsSound(s) && Enabled(c, s, IndexDocument(k))
    ensures var t := Next(c, s, IndexDocument(k));
            Rests(s, t) && SoundPhase(t, s.db.events[k.0].message, s.db.events[k.0].version, t.claims[k])
  {
    hide Valid, Folders;
    assert SoundPhase(s, s.db.events[k.0].message, s.db.events[k.0].version, s.claims[k]);
  }

  lemma IndexingStaysSound(c: Config, s: State, k: (nat, nat))
    requires Ledger(s) && ClaimsSound(s) && Enabled(c, s, IndexDocument(k))
    ensures var t := Next(c, s, IndexDocument(k)); Rests(s, t) && ClaimsSound(t)
  {
    hide Ledger, SoundPhase, ClaimsSound, Folders, IndexWrite;
    IndexedIsSound(c, s, k);
    OneClaimMoved(s, Next(c, s, IndexDocument(k)), k);
  }

  /** The heart of convergence: a document indexed under the current version was read from rows that
      have not changed since, whichever of the three reads came when, and however late it arrives. */
  lemma NewEntryIsSound(s: State, d: Document, v: nat)
    requires Ledger(s) && d.id in s.db.participants && SoundWrite(s, d, v)
    ensures SoundEntry(s, d.id, Entry(v, d, None))
  {
    hide Valid, Folders;
    ValidMatchesKeys(s.db);
  }

  lemma SameTablesSameEntry(s: State, t: State, id: MessageId, entry: Entry)
    requires t.db == s.db && t.past == s.past
    ensures SoundEntry(s, id, entry) == SoundEntry(t, id, entry)
  {
    hide Folders, BuildDocument, InputOf;
  }

  /** What a worker sends was loaded for its event. */
  lemma SentIsSound(s: State, k: (nat, nat))
    requires Ledger(s) && ClaimsSound(s) && k in s.claims && s.claims[k].Loaded? && k.0 < |s.db.events|
    ensures var d, v := s.claims[k].document, s.db.events[k.0].version;
            && d.id == s.db.events[k.0].message && d.id in s.db.messages && d.id in s.db.participants
            && SoundWrite(s, d, v)
  {
    hide Ledger, SoundPhase, SoundWrite;
    LedgerIsValid(s);
    EventsArePast(s.db, k.0);
    LoadedIsSound(s, s.db.events[k.0].message, s.db.events[k.0].version, s.claims[k].row, s.claims[k].document);
  }

  lemma LoadedIsSound(s: State, id: MessageId, v: nat, row: Row, d: Document)
    requires SoundPhase(s, id, v, Loaded(row, d))
    ensures d.id == id && SoundWrite(s, d, v)
  {
    hide Folders;
  }

  lemma StoringKeepsEntries(s: State, t: State, d: Document, v: nat)
    requires Ledger(s) && EntriesSound(s) && d.id in s.db.participants && SoundWrite(s, d, v)
    requires t.db == s.db && t.past == s.past && t.index == IndexWrite(s.index, d, v)
    ensures EntriesSound(t)
    ensures forall id :: id in s.index ==> id in t.index && s.index[id].external <= t.index[id].external
  {
    hide Ledger, SoundEntry, SoundWrite;
    NewEntryIsSound(s, d, v);
    forall id | id in t.index ensures SoundEntry(t, id, t.index[id]) {
      SameTablesSameEntry(s, t, id, t.index[id]);
    }
  }

  lemma SendingKeepsWrites(s: State, t: State, d: Document, v: nat)
    requires WritesSound(s) && d.id in s.db.messages && SoundWrite(s, d, v)
    requires t.db == s.db && t.past == s.past && t.index == s.index && t.inFlight == s.inFlight + {(d, v)}
    ensures WritesSound(t)
  {
    hide SoundPhase, Folders;
    forall w | w in t.inFlight ensures w.0.id in t.db.messages && SoundWrite(t, w.0, w.1) {
      SameTablesSameWrite(s, t, w.0, w.1);
    }
  }

  lemma SameTablesSameWrite(s: State, t: State, d: Document, v: nat)
    requires t.db == s.db && t.past == s.past
    ensures SoundWrite(s, d, v) == SoundWrite(t, d, v)
  {
    hide Folders, BuildDocument;
  }

  lemma IndexingKeepsIndex(c: Config, s: State, k: (nat, nat))
    requires Ledger(s) && ClaimsSound(s) && EntriesSound(s) && WritesSound(s) && Enabled(c, s, IndexDocument(k))
    ensures EntriesSound(Next(c, s, IndexDocument(k))) && WritesSound(Next(c, s, IndexDocument(k)))
  {
    hide Ledger, SoundEntry, SoundWrite, IndexWrite, ClaimsSound, EntriesSound, WritesSound;
    var d, v := s.claims[k].document, s.db.events[k.0].version;
    var t := Next(c, s, IndexDocument(k));
    SentIsSound(s, k);
    StoringKeepsEntries(s, t, d, v);
    SendingKeepsWrites(s, s.(inFlight := t.inFlight), d, v);
    SameInFlight(s.(inFlight := t.inFlight), t);
  }

  lemma SameInFlight(s: State, t: State)
    requires WritesSound(s) && t.db == s.db && t.past == s.past && t.inFlight == s.inFlight
    ensures WritesSound(t)
  {
    hide SoundWrite;
    forall w | w in t.inFlight ensures w.0.id in t.db.messages && SoundWrite(t, w.0, w.1) {
      SameTablesSameWrite(s, t, w.0, w.1);
    }
  }

  lemma LosingKeepsWrites(c: Config, s: State, k: (nat, nat))
    requires Ledger(s) && ClaimsSound(s) && WritesSound(s) && Enabled(c, s, LoseAnswer(k))
    ensures WritesSound(Next(c, s, LoseAnswer(k)))
  {
    hide Ledger, SoundWrite, ClaimsSound, WritesSound;
    SentIsSound(s, k);
    SendingKeepsWrites(s, Next(c, s, LoseAnswer(k)), s.claims[k].document, s.db.events[k.0].version);
  }

  /** A write may arrive long after its sender gave up, and twice. */
  lemma ArrivalKeepsEntries(c: Config, s: State, d: Document, v: nat)
    requires Ledger(s) && EntriesSound(s) && WritesSound(s) && (d, v) in s.inFlight
    ensures var t := Next(c, s, Arrive(d, v)); Rests(s, t) && EntriesSound(t)
  {
    hide SoundEntry, SoundWrite, IndexWrite, EntriesSound, Valid;
    ValidMatchesKeys(s.db);
    assert (d, v).0.id in s.db.messages && SoundWrite(s, (d, v).0, (d, v).1);
    StoringKeepsEntries(s, Next(c, s, Arrive(d, v)), d, v);
  }

  lemma EnqueueKeepsClaims(c: Config, s: State, k: (nat, nat), works: bool, landed: bool)
    requires Ledger(s) && ClaimsSound(s) && Enabled(c, s, EnqueueEmbedding(k, works, landed))
    ensures ClaimsSound(Next(c, s, EnqueueEmbedding(k, works, landed)))
  {
    hide Valid, LiveInput, WithJob, SoundRow;
    var t := Next(c, s, EnqueueEmbedding(k, works, landed));
    var id, v := s.db.events[k.0].message, s.db.events[k.0].version;
    assert SoundPhase(s, id, v, s.claims[k]);
    SameTablesSameRow(s, t, id, v, s.claims[k].row);
    assert SoundPhase(t, id, v, t.claims[k]);
    hide SoundPhase;
    OneClaimMoved(s, t, k);
  }

  lemma SameTablesSameRow(s: State, t: State, id: MessageId, v: nat, row: Row)
    requires t.db == s.db && t.past == s.past
    ensures SoundRow(s, id, v, row) == SoundRow(t, id, v, row)
  {
  }

  lemma EnqueueKeepsJobs(c: Config, s: State, k: (nat, nat), works: bool, landed: bool)
    requires Ledger(s) && ClaimsSound(s) && JobsSound(s) && Enabled(c, s, EnqueueEmbedding(k, works, landed))
    ensures JobsSound(Next(c, s, EnqueueEmbedding(k, works, landed)))
  {
    hide Valid, LiveInput, SoundVector;
    var t := Next(c, s, EnqueueEmbedding(k, works, landed));
    var id, row := s.db.events[k.0].message, s.claims[k].row;
    assert SoundPhase(s, id, s.db.events[k.0].version, s.claims[k]);
    LiveVectorIsSound(s, id, row);
    OneMoreVector(s, t, (id, row.version));
  }

  lemma LiveVectorIsSound(s: State, id: MessageId, row: Row)
    requires row.version <= VersionOf(s.db, id) && (id, row.version) in s.past && s.past[(id, row.version)] == row
    ensures SoundVector(s, id, Vector(row.version, LiveInput(row), Live))
    ensures SoundVector(s, id, Vector(row.version, BackfillInput(row), Backfill))
  {
  }

  /** At most the job k is new or changed. */
  lemma OneMoreVector(s: State, t: State, k: (MessageId, nat))
    requires JobsSound(s) && t.db == s.db && t.past == s.past && t.readings == s.readings
    requires forall j :: j in t.jobs && j != k ==> j in s.jobs && t.jobs[j] == s.jobs[j]
    requires k in t.jobs ==> SoundVector(s, k.0, JobVector(t.jobs, k))
    ensures JobsSound(t)
  {
    hide SoundVector;
    forall j | j in t.jobs ensures SoundVector(t, j.0, JobVector(t.jobs, j)) {
      SameTablesSameVector(s, t, j.0, JobVector(t.jobs, j));
    }
    forall r | r in t.readings ensures SoundVector(t, r.message, ReadingVector(r)) {
      SameTablesSameVector(s, t, r.message, ReadingVector(r));
    }
  }

  lemma SameTablesSameVector(s: State, t: State, id: MessageId, vector: Vector)
    requires t.db == s.db && t.past == s.past
    ensures SoundVector(s, id, vector) == SoundVector(t, id, vector)
  {
    hide InputOf;
  }

  lemma BackfillKeepsJobs(c: Config, s: State, id: MessageId)
    requires Ledger(s) && JobsSound(s) && id in s.db.messages
    ensures JobsSound(Next(c, s, BackfillRead(id)))
  {
    hide Valid, SoundVector;
    var t := Next(c, s, BackfillRead(id));
    LiveVectorIsSound(s, id, s.db.messages[id]);
    forall j | j in t.jobs ensures SoundVector(t, j.0, JobVector(t.jobs, j)) {
      SameTablesSameVector(s, t, j.0, JobVector(t.jobs, j));
    }
    forall r | r in t.readings ensures SoundVector(t, r.message, ReadingVector(r)) {
      SameTablesSameVector(s, t, r.message, ReadingVector(r));
    }
  }

  /** A job runs, fails for good, or is forgotten. */
  predicate MovesJob(step: Step) {
    step.RunJob? || step.FailJob? || step.ForgetJob?
  }

  lemma JobStepsKeepJobs(c: Config, s: State, step: Step)
    requires JobsSound(s) && Enabled(c, s, step) && MovesJob(step)
    ensures JobsSound(Next(c, s, step))
  {
    hide SoundVector, VectorWrite;
    OneMoreVector(s, Next(c, s, step), (step.message, step.version));
  }

  lemma EmbeddedEntryIsSound(s: State, id: MessageId, entry: Entry, vector: Vector)
    requires SoundEntry(s, id, entry) && SoundVector(s, id, vector) && entry.source.version <= vector.version
    ensures SoundEntry(s, id, Entry(entry.external, entry.source, Some(vector)))
  {
    hide Projected, BuildDocument;
  }

  lemma VectorKeepsEntries(s: State, t: State, id: MessageId, vector: Vector)
    requires EntriesSound(s) && SoundVector(s, id, vector)
    requires t.db == s.db && t.past == s.past && t.index == VectorWrite(s.index, id, vector, 0)
    ensures EntriesSound(t)
    ensures forall id :: id in s.index ==> id in t.index && s.index[id].external <= t.index[id].external
  {
    hide SoundEntry, SoundVector;
    if AcceptsVector(s.index, id, vector) {
      EmbeddedEntryIsSound(s, id, s.index[id], vector);
    }
    forall other | other in t.index ensures SoundEntry(t, other, t.index[other]) {
      SameTablesSameEntry(s, t, other, t.index[other]);
    }
  }

  lemma EmbeddingKeepsEntries(c: Config, s: State, step: Step)
    requires c.bump == 0 && EntriesSound(s) && JobsSound(s) && Enabled(c, s, step)
    requires step.RunJob? || step.BackfillWrite?
    ensures var t := Next(c, s, step); Rests(s, t) && EntriesSound(t)
  {
    hide SoundEntry, SoundVector, VectorWrite, EntriesSound;
    if step.RunJob? {
      var k := (step.message, step.version);
      assert SoundVector(s, k.0, JobVector(s.jobs, k));
      VectorKeepsEntries(s, Next(c, s, step), step.message, JobVector(s.jobs, k));
    } else {
      assert SoundVector(s, step.reading.message, ReadingVector(step.reading));
      VectorKeepsEntries(s, Next(c, s, step), step.reading.message, ReadingVector(step.reading));
    }
  }

  lemma ClaimStaysConsistent(c: Config, s: State, step: Step)
    requires RowsConsistent(c, s) && Enabled(c, s, step) && step.ClaimEvent?
    ensures RowsConsistent(c, Next(c, s, step))
  {
    hide Consistent;
    StepKeepsConsistent(s.rows[step.event], Claim(step.worker, step.now, step.duration), c.maxAttempts);
  }

  lemma SettlingStaysConsistent(c: Config, s: State, k: (nat, nat), m: Move)
    requires RowsConsistent(c, s) && k in s.claims && k.0 < |s.rows| && !m.Claim?
    ensures RowsConsistent(c, Settle(c, s, k, m))
  {
    hide Consistent, Effective;
    StepKeepsConsistent(s.rows[k.0], m, c.maxAttempts);
  }

  lemma MutationStaysConsistent(c: Config, s: State, db: Db, now: Time)
    requires RowsConsistent(c, s)
    ensures RowsConsistent(c, Mutated(s, db, now))
  {
    hide Consistent, RowsNow;
    FreshIsConsistent(now, c.maxAttempts);
  }

  /** The other steps leave the rows alone and open no claim. */
  lemma OnlyRowMovesTouchRows(c: Config, s: State, step: Step)
    requires Enabled(c, s, step) && !step.Mutate? && !MovesRow(step)
    ensures var t := Next(c, s, step);
            t.rows == s.rows && forall k :: k in t.claims ==> k in s.claims
  {
    hide ApplyAll, IndexWrite, VectorWrite, BuildDocument, Folders, LiveInput, BackfillInput, WithJob, Effective,
         OutboxLifecycle.Step, BagsOf, Exempt;
  }

  lemma RowsStayConsistent(c: Config, s: State, step: Step)
    requires RowsConsistent(c, s) && Enabled(c, s, step)
    ensures RowsConsistent(c, Next(c, s, step))
  {
    hide RowsConsistent, ApplyAll;
    if step.Mutate? {
      MutationStaysConsistent(c, s, ApplyAll(s.db, step.changes), step.now);
    } else if step.ClaimEvent? {
      ClaimStaysConsistent(c, s, step);
    } else if MovesRow(step) {
      RowMoveStaysConsistent(c, s, step);
    } else {
      OtherStepsStayConsistent(c, s, step);
    }
  }

  lemma RowMoveStaysConsistent(c: Config, s: State, step: Step)
    requires RowsConsistent(c, s) && Enabled(c, s, step) && MovesRow(step) && !step.ClaimEvent?
    ensures RowsConsistent(c, Next(c, s, step))
  {
    hide Consistent, Effective, OutboxLifecycle.Step;
    SettlingStaysConsistent(c, s, step.claim, MoveOf(step));
  }

  lemma OtherStepsStayConsistent(c: Config, s: State, step: Step)
    requires RowsConsistent(c, s) && Enabled(c, s, step) && !step.Mutate? && !MovesRow(step)
    ensures RowsConsistent(c, Next(c, s, step))
  {
    hide Next, Enabled, Consistent;
    OnlyRowMovesTouchRows(c, s, step);
  }

  lemma FreshIsConsistent(now: Time, maxAttempts: int)
    ensures Consistent(OutboxLifecycle.Created(now), maxAttempts)
  {
  }

  function MoveOf(step: Step): Move
    requires step.Finish? || step.GiveUp? || step.Retry?
  {
    match step
    case Finish(k, w, now) => Complete(w, k.1, now)
    case GiveUp(k, w, now, reason) => Abandon(w, k.1, now, reason)
    case Retry(k, w, now, reason, delay) => Fail(w, k.1, now, reason, delay)
  }

  predicate MovesRow(step: Step) {
    step.ClaimEvent? || step.Finish? || step.GiveUp? || step.Retry?
  }

  lemma SettlingKeepsClaims(c: Config, s: State, t: State, k: (nat, nat), m: Move)
    requires Ledger(s) && ClaimsSound(s) && k in s.claims && k.0 < |s.rows|
    requires t == Settle(c, s, k, m).(log := t.log)
    ensures Rests(s, t) && ClaimsSound(t)
  {
    hide Ledger, OutboxLifecycle.Step, SoundPhase;
    OneClaimMoved(s, t, k);
  }

  lemma ClaimingKeepsClaims(c: Config, s: State, step: Step)
    requires Ledger(s) && ClaimsSound(s) && Enabled(c, s, step) && step.ClaimEvent?
    ensures var t := Next(c, s, step); Rests(s, t) && ClaimsSound(t)
  {
    hide Valid, OutboxLifecycle.Step, Effective, SoundRow, StoredVersionsArePositive, Folders;
    var t := Next(c, s, step);
    OneClaimMoved(s, t, (step.event, t.rows[step.event].row.lease.version));
  }

  lemma RowMovesKeepClaims(c: Config, s: State, step: Step)
    requires Ledger(s) && ClaimsSound(s) && Enabled(c, s, step) && MovesRow(step)
    ensures var t := Next(c, s, step); Rests(s, t) && ClaimsSound(t)
  {
    hide Ledger, ClaimsSound, Rests, OutboxLifecycle.Step, Effective;
    if step.ClaimEvent? {
      ClaimingKeepsClaims(c, s, step);
    } else {
      SettlingKeepsClaims(c, s, Next(c, s, step), step.claim, MoveOf(step));
    }
  }

  lemma OnlyCompletionIsDone(s: EventState, m: Move, maxAttempts: int)
    ensures OutboxLifecycle.Step(s, m, maxAttempts).row.payload.status.Done? ==>
              s.row.payload.status.Done? || m.Complete?
  {
  }

  lemma SettlingKeepsDone(c: Config, s: State, k: (nat, nat), m: Move)
    requires DoneIsIndexed(s) && k.0 < |s.rows| && k.0 < |s.db.events|
    requires m.Complete? ==>
               s.db.events[k.0].message in s.index
                   && s.db.events[k.0].version <= s.index[s.db.events[k.0].message].external
    ensures DoneIsIndexed(Settle(c, s, k, m))
  {
    hide OutboxLifecycle.Step;
    OnlyCompletionIsDone(s.rows[k.0], m, c.maxAttempts);
  }

  lemma ClaimingKeepsDone(c: Config, s: State, step: Step)
    requires DoneIsIndexed(s) && Enabled(c, s, step) && step.ClaimEvent?
    ensures DoneIsIndexed(Next(c, s, step))
  {
    hide OutboxLifecycle.Step;
    OnlyCompletionIsDone(s.rows[step.event], Claim(step.worker, step.now, step.duration), c.maxAttempts);
  }

  /** Only a finish makes an event DONE, and it comes after the index accepted the event's version. */
  lemma DoneStaysIndexed(c: Config, s: State, step: Step)
    requires Ledger(s) && ClaimsSound(s) && DoneIsIndexed(s) && Enabled(c, s, step) && MovesRow(step)
    ensures DoneIsIndexed(Next(c, s, step))
  {
    hide Ledger, SoundRow, DoneIsIndexed, OutboxLifecycle.Step, Effective;
    if step.ClaimEvent? {
      ClaimingKeepsDone(c, s, step);
    } else {
      var k := step.claim;
      assert SoundPhase(s, s.db.events[k.0].message, s.db.events[k.0].version, s.claims[k]);
      SettlingKeepsDone(c, s, k, MoveOf(step));
      NotesKeepDone(Settle(c, s, k, MoveOf(step)), Next(c, s, step));
    }
  }

  lemma NotesKeepDone(s: State, t: State)
    requires DoneIsIndexed(s) && t == s.(log := t.log)
    ensures DoneIsIndexed(t)
  {
  }

  predicate TouchesIndex(step: Step) {
    step.IndexDocument? || step.Arrive? || step.RunJob? || step.BackfillWrite?
  }

  lemma StepKeepsIndex(c: Config, s: State, step: Step)
    requires c.bump == 0 && Inv(c, s) && Enabled(c, s, step) && TouchesIndex(step)
    ensures var t := Next(c, s, step); Rests(s, t) && EntriesSound(t)
  {
    hide Ledger, RowsConsistent, ClaimsSound, JobsSound, WritesSound, EntriesSound, DoneIsIndexed, Rests, VectorWrite,
         IndexWrite;
    if step.IndexDocument? {
      IndexingStaysSound(c, s, step.claim);
      IndexingKeepsIndex(c, s, step.claim);
    } else if step.Arrive? {
      ArrivalIsSound(c, s, step);
    } else {
      EmbeddingKeepsEntries(c, s, step);
    }
  }

  lemma ArrivalIsSound(c: Config, s: State, step: Step)
    requires Inv(c, s) && Enabled(c, s, step) && step.Arrive?
    ensures var t := Next(c, s, step); Rests(s, t) && EntriesSound(t)
  {
    hide Ledger, RowsConsistent, ClaimsSound, JobsSound, WritesSound, EntriesSound, DoneIsIndexed, Rests, IndexWrite;
    ArrivalKeepsEntries(c, s, step.document, step.version);
  }

  /** The tables, the index and the rows apart, a step moves one claim, one job, one reading or one
      write. */
  lemma StepKeepsTheRest(c: Config, s: State, step: Step)
    requires Inv(c, s) && Enabled(c, s, step) && !step.Mutate? && Rests(s, Next(c, s, step))
    ensures var t := Next(c, s, step); ClaimsSound(t) && JobsSound(t) && WritesSound(t)
  {
    hide ApplyAll, Ledger, RowsConsistent, ClaimsSound, JobsSound, WritesSound, EntriesSound, DoneIsIndexed,
         OutboxLifecycle.Step, Effective, IndexWrite, VectorWrite, LiveInput, BackfillInput, Folders, BuildDocument,
         WithJob, Advances, Exempt;
    LedgerIsValid(s);
    var t := Next(c, s, step);
    RestAdvances(s, t);
    AdvanceKeepsIndex(s, t);
    if Reads(step) {
      ReadsStaySound(c, s, step);
    } else if step.IndexDocument? {
      IndexingStaysSound(c, s, step.claim);
      IndexingKeepsIndex(c, s, step.claim);
    } else if step.EnqueueEmbedding? {
      EnqueueKeepsClaims(c, s, step.claim, step.works, step.landed);
      EnqueueKeepsJobs(c, s, step.claim, step.works, step.landed);
    } else if MovesRow(step) {
      RowMovesKeepClaims(c, s, step);
    } else {
      AdvanceKeepsClaims(s, t);
      if step.LoseAnswer? {
        LosingKeepsWrites(c, s, step.claim);
      } else if MovesJob(step) {
        JobStepsKeepJobs(c, s, step);
      } else if step.BackfillRead? {
        BackfillKeepsJobs(c, s, step.message);
      }
    }
  }

  lemma StepRests(c: Config, s: State, step: Step)
    requires c.bump == 0 && Inv(c, s) && Enabled(c, s, step) && !step.Mutate?
    ensures Rests(s, Next(c, s, step))
    ensures TouchesIndex(step) ==> EntriesSound(Next(c, s, step))
  {
    if TouchesIndex(step) {
      hide Ledger, RowsConsistent, ClaimsSound, JobsSound, WritesSound, EntriesSound, DoneIsIndexed, Rests, Next;
      StepKeepsIndex(c, s, step);
    } else {
      hide Ledger, RowsConsistent, ClaimsSound, JobsSound, WritesSound, EntriesSound, DoneIsIndexed, ApplyAll,
           OutboxLifecycle.Step, Effective, LiveInput, BackfillInput, Folders, BuildDocument, WithJob, Exempt;
    }
  }

  lemma StepKeepsDone(c: Config, s: State, step: Step)
    requires Inv(c, s) && Enabled(c, s, step) && !step.Mutate? && Rests(s, Next(c, s, step))
    ensures DoneIsIndexed(Next(c, s, step))
  {
    hide Ledger, RowsConsistent, ClaimsSound, JobsSound, WritesSound, EntriesSound, ApplyAll, OutboxLifecycle.Step,
         Effective, LiveInput, BackfillInput, Folders, BuildDocument, WithJob, Exempt, IndexWrite, VectorWrite;
    if MovesRow(step) {
      hide DoneIsIndexed;
      DoneStaysIndexed(c, s, step);
    }
  }

  lemma StepKeepsInv(c: Config, s: State, step: Step)
    requires c.bump == 0 && Inv(c, s) && Enabled(c, s, step)
    ensures Inv(c, Next(c, s, step))
  {
    hide Next, Ledger, RowsConsistent, ClaimsSound, JobsSound, WritesSound, EntriesSound, DoneIsIndexed, Rests,
         Advances;
    LedgerIsValid(s);
    RowsStayConsistent(c, s, step);
    var t := Next(c, s, step);
    if step.Mutate? {
      MutationKeepsInv(c, s, step.changes, step.now);
    } else {
      StepRests(c, s, step);
      StepKeepsTheRest(c, s, step);
      StepKeepsDone(c, s, step);
      RestAdvances(s, t);
      RestKeepsTheTables(s, t);
      AdvanceKeepsIndex(s, t);
      if !TouchesIndex(step) {
        SameIndexUnlessTouched(c, s, step);
      }
    }
  }

  lemma RestKeepsTheTables(s: State, t: State)
    requires Rests(s, t)
    ensures t.db == s.db
  {
  }

  lemma SameIndexUnlessTouched(c: Config, s: State, step: Step)
    requires Enabled(c, s, step) && !TouchesIndex(step)
    ensures Next(c, s, step).index == s.index
  {
    hide ApplyAll, OutboxLifecycle.Step, Effective, LiveInput, BackfillInput, Folders, BuildDocument, WithJob, Exempt;
  }

  lemma {:induction false} ReachedInv(c: Config, steps: seq<Step>)
    requires c.bump == 0
    ensures Inv(c, Reached(c, steps))
  {
    hide Next, Enabled;
    if steps == [] {
      StartInv(c);
    } else {
      var n := |steps| - 1;
      ReachedInv(c, steps[..n]);
      if Enabled(c, Reached(c, steps[..n]), steps[n]) {
        StepKeepsInv(c, Reached(c, steps[..n]), steps[n]);
      }
    }
  }

  lemma StartInv(c: Config)
    ensures Inv(c, START)
  {
  }

  // --- what the index holds -------------------------------------------------------------

  /** A document is the message as the tables have it, part by part. */
  ghost predicate Shows(d: Document, db: Db, id: MessageId) {
    && id in db.messages && id in db.participants
    && d.id == id && d.version == db.messages[id].version && d.isDeleted == db.messages[id].isDeleted
    && d.fields == db.messages[id].fields && d.participants == db.participants[id]
    && (forall folder :: folder in d.folders <==> (folder, id) in db.memberships)
  }

  lemma ProjectedShows(db: Db, id: MessageId)
    requires id in db.messages && id in db.participants
    ensures Shows(Projected(db, id), db, id)
  {
    forall folder ensures folder in Folders(db, id) <==> (folder, id) in db.memberships {
      FoldersMembership(db, id, folder);
    }
  }

  /** Index convergence: once the event of a message's current version is DONE, the indexed document
      is the message's row, participants and memberships as they stand, although these came from
      three separate reads and were indexed under the event's version. */
  lemma IndexConverges(c: Config, steps: seq<Step>, e: nat)
    requires c.bump == 0
    ensures var s := Reached(c, steps);
            && |s.rows| == |s.db.events|
            && (e < |s.rows| && s.rows[e].row.payload.status.Done? ==>
                  var id := s.db.events[e].message;
                  && id in s.index && id in s.db.messages && id in s.db.participants
                  && s.db.events[e].version <= s.index[id].source.version <= VersionOf(s.db, id)
                  && (s.db.events[e].version == VersionOf(s.db, id) ==>
                        s.index[id].source == Projected(s.db, id) && Shows(s.index[id].source, s.db, id)))
  {
    hide Reached, Shows;
    ReachedInv(c, steps);
    var s := Reached(c, steps);
    if e < |s.rows| && s.rows[e].row.payload.status.Done? {
      var id := s.db.events[e].message;
      assert SoundEntry(s, id, s.index[id]);
      ProjectedShows(s.db, id);
    }
  }

  lemma {:induction false} AnnouncedSomewhere(events: seq<Event>, id: MessageId, i: nat)
    requires i < |Announced(events, id)|
    ensures exists e :: 0 <= e < |events| && events[e].message == id && events[e].version == Announced(events, id)[i]
  {
    var n := |events| - 1;
    if i < |Announced(events[..n], id)| {
      AnnouncedSomewhere(events[..n], id, i);
      var e :| 0 <= e < n && events[..n][e].message == id && events[..n][e].version == Announced(events[..n], id)[i];
      assert events[e].message == id;
    } else {
      assert events[n].message == id;
    }
  }

  /** A drained outbox means an index equal to the tables: the same messages, each with the document
      of its current row, participants and memberships. */
  lemma DrainedOutboxMeansIndexEqualsTables(c: Config, steps: seq<Step>)
    requires c.bump == 0
    requires forall e :: 0 <= e < |Reached(c, steps).rows| ==> Reached(c, steps).rows[e].row.payload.status.Done?
    ensures var s := Reached(c, steps);
            && s.index.Keys == s.db.messages.Keys
            && forall id :: id in s.index ==>
                 && id in s.db.participants && s.index[id].source == Projected(s.db, id)
                 && Shows(s.index[id].source, s.db, id)
  {
    hide Reached, Projected, Shows;
    ReachedInv(c, steps);
    var s := Reached(c, steps);
    forall id | id in s.db.messages ensures id in s.index && s.index[id].source == Projected(s.db, id) {
      UpToCounts(VersionOf(s.db, id));
      AnnouncedSomewhere(s.db.events, id, VersionOf(s.db, id) - 1);
      var e :| 0 <= e < |s.db.events| && s.db.events[e].message == id && s.db.events[e].version == VersionOf(s.db, id);
      IndexConverges(c, steps, e);
    }
    forall id | id in s.index ensures id in s.db.messages && id in s.db.participants {
      assert SoundEntry(s, id, s.index[id]);
    }
    forall id | id in s.index ensures Shows(s.index[id].source, s.db, id) {
      ProjectedShows(s.db, id);
    }
  }

  /** Vectors are never stale: a stored vector is of the document's version or a later one, computed by
      its writer from the row that version had; on the current version it is of that very row. */
  lemma VectorsAreNeverStale(c: Config, steps: seq<Step>, id: MessageId)
    requires c.bump == 0
    ensures var s := Reached(c, steps);
            id in s.index && s.index[id].vector.Some? ==>
              var d, v := s.index[id].source, s.index[id].vector.value;
              && d.version <= v.version <= VersionOf(s.db, id)
              && (id, v.version) in s.past
              && v.input == InputOf(v.writer, s.past[(id, v.version)])
              && (d.version == VersionOf(s.db, id) ==>
                    id in s.db.messages && v.version == d.version && v.input == InputOf(v.writer, s.db.messages[id]))
  {
    hide Reached, Projected, InputOf;
    ReachedInv(c, steps);
    var s := Reached(c, steps);
    if id in s.index {
      assert SoundEntry(s, id, s.index[id]);
    }
  }
}
