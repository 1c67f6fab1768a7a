/** What becomes of embeddings: when a finished projection holds a vector and when it has lost it, and
    why convergence rests on what the update endpoint does to the external version. */
module EmbeddingFate {
  import opened Leases
  import opened MailRepositories
  import opened OutboxLifecycle
  import opened MailData
  import opened MessageProcessing
  import opened Projection
  import opened Convergence

  // --- the index is its accepted writes -------------------------------------------------

  /** The last write that the index accepted for a message. */
  function LastWrite(writes: seq<IndexEvent>, id: MessageId): Option<IndexEvent> {
    if writes == [] then None
    else
      var last := writes[|writes| - 1];
      if last.message == id then Some(last) else LastWrite(writes[..|writes| - 1], id)
  }

  ghost predicate HoldsLastWrite(s: State, id: MessageId) {
    match LastWrite(s.writes, id)
    case None => id !in s.index
    case Some(DocumentStored(_, v)) => id in s.index && s.index[id].vector.None? && s.index[id].source.version == v
    case Some(VectorStored(_, vector)) => id in s.index && s.index[id].vector == Some(vector)
  }

  lemma LastWriteAppend(writes: seq<IndexEvent>, e: IndexEvent, id: MessageId)
    ensures LastWrite(writes + [e], id) == if e.message == id then Some(e) else LastWrite(writes, id)
  {
    assert (writes + [e])[..|writes|] == writes;
  }

  lemma DocumentKeepsLastWrite(s: State, d: Document, v: nat, id: MessageId)
    requires HoldsLastWrite(s, id)
    ensures HoldsLastWrite(StoreDocument(s, d, v), id)
  {
    LastWriteAppend(s.writes, DocumentStored(d.id, d.version), id);
  }

  lemma VectorKeepsLastWrite(c: Config, s: State, target: MessageId, vector: Vector, id: MessageId)
    requires HoldsLastWrite(s, id)
    ensures HoldsLastWrite(StoreVector(c, s, target, vector), id)
  {
    LastWriteAppend(s.writes, VectorStored(target, vector), id);
  }

  lemma SameWritesSameIndex(s: State, t: State, id: MessageId)
    requires HoldsLastWrite(s, id) && t.index == s.index && t.writes == s.writes
    ensures HoldsLastWrite(t, id)
  {
  }

  lemma UntouchedWrites(c: Config, s: State, step: Step)
    requires Enabled(c, s, step) && !TouchesIndex(step)
    ensures Next(c, s, step).writes == s.writes
  {
    hide ApplyAll, OutboxLifecycle.Step, Effective, LiveInput, BackfillInput, Folders, BuildDocument, WithJob, Exempt;
  }

  lemma StepKeepsLastWrite(c: Config, s: State, step: Step, id: MessageId)
    requires HoldsLastWrite(s, id) && Enabled(c, s, step)
    ensures HoldsLastWrite(Next(c, s, step), id)
  {
    hide HoldsLastWrite, StoreDocument, StoreVector, ApplyAll;
    var t := Next(c, s, step);
    if TouchesIndex(step) {
      match step
      case IndexDocument(k) =>
        var d, v := s.claims[k].document, s.db.events[k.0].version;
        DocumentKeepsLastWrite(s, d, v, id);
        SameWritesSameIndex(StoreDocument(s, d, v), t, id);
      case Arrive(d, v) => DocumentKeepsLastWrite(s, d, v, id);
      case RunJob(target, v, _) =>
        var vector := Vector(v, s.jobs[(target, v)].input, Live);
        VectorKeepsLastWrite(c, s, target, vector, id);
        SameWritesSameIndex(StoreVector(c, s, target, vector), t, id);
      case BackfillWrite(r) => VectorKeepsLastWrite(c, s, r.message, Vector(r.version, r.input, Backfill), id);
    } else {
      SameIndexUnlessTouched(c, s, step);
      UntouchedWrites(c, s, step);
      SameWritesSameIndex(s, t, id);
    }
  }

  /** In every reachable state an entry is what the last write made of it: it holds a vector exactly when
      the last write that the index accepted for it was a vector. */
  lemma {:induction false} EntriesAreTheirLastWrite(c: Config, steps: seq<Step>, id: MessageId)
    ensures HoldsLastWrite(Reached(c, steps), id)
  {
    hide Next, Enabled, HoldsLastWrite;
    if steps == [] {
      NothingWritten(id);
    } else {
      var s, step := Reached(c, steps[..|steps| - 1]), steps[|steps| - 1];
      EntriesAreTheirLastWrite(c, steps[..|steps| - 1], id);
      if Enabled(c, s, step) {
        StepKeepsLastWrite(c, s, step, id);
      }
    }
  }

  lemma NothingWritten(id: MessageId)
    ensures HoldsLastWrite(START, id)
  {
  }

  /** Write i is an embedding of this version, and no document came after it. */
  ghost predicate EmbeddedAt(writes: seq<IndexEvent>, id: MessageId, version: nat, i: int) {
    && 0 <= i < |writes| && writes[i].VectorStored? && writes[i].message == id && writes[i].vector.version == version
    && forall j :: i < j < |writes| && writes[j].message == id ==> writes[j].VectorStored?
  }

  ghost predicate EmbeddedAfterTheDocument(writes: seq<IndexEvent>, id: MessageId, version: nat) {
    exists i :: EmbeddedAt(writes, id, version, i)
  }

  lemma {:induction false} LastWriteIsAVectorIff(writes: seq<IndexEvent>, id: MessageId)
    ensures LastWrite(writes, id).Some? && LastWrite(writes, id).value.VectorStored? ==>
              LastWrite(writes, id).value.message == id
              && EmbeddedAfterTheDocument(writes, id, LastWrite(writes, id).value.vector.version)
    ensures (exists v :: EmbeddedAfterTheDocument(writes, id, v)) ==>
              LastWrite(writes, id).Some? && LastWrite(writes, id).value.VectorStored?
  {
    if writes != [] {
      var n := |writes| - 1;
      var front := writes[..n];
      LastWriteIsAVectorIff(front, id);
      if writes[n].message != id {
        forall v ensures EmbeddedAfterTheDocument(front, id, v) == EmbeddedAfterTheDocument(writes, id, v) {
          AnotherMessagesWrite(writes, id, v);
        }
      } else if writes[n].VectorStored? {
        assert EmbeddedAt(writes, id, writes[n].vector.version, n);
      }
    }
  }

  lemma AnotherMessagesWrite(writes: seq<IndexEvent>, id: MessageId, v: nat)
    requires writes != [] && writes[|writes| - 1].message != id
    ensures EmbeddedAfterTheDocument(writes[..|writes| - 1], id, v) == EmbeddedAfterTheDocument(writes, id, v)
  {
    var front := writes[..|writes| - 1];
    if i :| EmbeddedAt(front, id, v, i) {
      assert EmbeddedAt(writes, id, v, i);
    }
    if i :| EmbeddedAt(writes, id, v, i) {
      assert EmbeddedAt(front, id, v, i);
    }
  }

  /** When DONE comes with a vector: a drained run holds the current document of every message, and its
      vector if and only if an embedding of that version was accepted after the last document that was
      accepted for the message. */
  lemma DrainedRunHoldsTheVectorIff(c: Config, steps: seq<Step>, id: MessageId)
    requires c.bump == 0
    requires forall e :: 0 <= e < |Reached(c, steps).rows| ==> Reached(c, steps).rows[e].row.payload.status.Done?
    requires id in Reached(c, steps).db.messages
    ensures var s := Reached(c, steps);
            && id in s.index && id in s.db.participants && s.index[id].source == Projected(s.db, id)
            && (s.index[id].vector.Some? <==> EmbeddedAfterTheDocument(s.writes, id, VersionOf(s.db, id)))
  {
    hide Reached, EmbeddedAfterTheDocument, LastWrite;
    var s := Reached(c, steps);
    DrainedOutboxMeansIndexEqualsTables(c, steps);
    assert id in s.index by { assert id in s.index.Keys; }
    VectorsAreNeverStale(c, steps, id);
    EntriesAreTheirLastWrite(c, steps, id);
    LastWriteIsAVectorIff(s.writes, id);
  }

  // --- steps of concrete runs -----------------------------------------------------------

  /** Event e, freshly appended, under its first claim. */
  function FirstClaim(e: nat): (nat, nat) {
    (e, 2)
  }

  /** A worker claims a fresh event, reads the tables and indexes the document. */
  function Indexing(e: nat): seq<Step> {
    [ClaimEvent(e, 0, 0, 1), LoadRow(FirstClaim(e)), LoadParticipants(FirstClaim(e)), LoadMemberships(FirstClaim(e)),
     IndexDocument(FirstClaim(e))]
  }

  function Finishing(e: nat): seq<Step> {
    [EnqueueEmbedding(FirstClaim(e), true, true), Finish(FirstClaim(e), 0, 0)]
  }

  const TAKEN :=
    EventState(Register(Lease(Some(0), Some(1), 2), OutboxColumns(InFlight, 0, None, 0, None)), map[2 := 0], 0)

  const COMPLETED :=
    EventState(Register(Lease(None, None, 2), OutboxColumns(Done, 0, None, 0, Some(0))), map[2 := 0], 0)

  lemma RunOneMore(c: Config, s: State, steps: seq<Step>, step: Step)
    ensures RunFrom(c, s, steps + [step]) == Do(c, RunFrom(c, s, steps), step)
  {
    assert (steps + [step])[..|steps|] == steps;
  }

  lemma {:induction false} RunAppends(c: Config, s: State, first: seq<Step>, rest: seq<Step>)
    ensures RunFrom(c, s, first + rest) == RunFrom(c, RunFrom(c, s, first), rest)
  {
    hide Do;
    if rest == [] {
      assert first + rest == first;
    } else {
      var n := |rest| - 1;
      RunAppends(c, s, first, rest[..n]);
      assert (first + rest)[..|first + rest| - 1] == first + rest[..n];
    }
  }

  lemma TakesTheClaim(maxAttempts: int)
    ensures Effective(OutboxLifecycle.Created(0), Claim(0, 0, 1), maxAttempts)
    ensures OutboxLifecycle.Step(OutboxLifecycle.Created(0), Claim(0, 0, 1), maxAttempts) == TAKEN
    ensures Effective(TAKEN, Complete(0, 2, 0), maxAttempts)
    ensures OutboxLifecycle.Step(TAKEN, Complete(0, 2, 0), maxAttempts) == COMPLETED
  {
  }

  /** The event is fresh, and its message is stored. */
  ghost predicate IsFresh(s: State, e: nat) {
    && e < |s.rows| == |s.db.events| && s.rows[e] == OutboxLifecycle.Created(0)
    && s.db.events[e].message in s.db.messages && s.db.events[e].message in s.db.participants
  }

  lemma LoadingGoes(c: Config, s: State, e: nat)
    requires IsFresh(s, e)
    ensures var id := s.db.events[e].message;
            RunFrom(c, s, Indexing(e)[..4])
            == s.(rows := s.rows[e := TAKEN],
                  claims := s.claims[FirstClaim(e) := Loaded(s.db.messages[id], Projected(s.db, id))])
  {
    hide Do;
    var steps := Indexing(e);
    assert steps[..1] == [] + [steps[0]] && steps[..2] == steps[..1] + [steps[1]];
    assert steps[..3] == steps[..2] + [steps[2]] && steps[..4] == steps[..3] + [steps[3]];
    RunOneMore(c, s, [], steps[0]);
    RunOneMore(c, s, steps[..1], steps[1]);
    RunOneMore(c, s, steps[..2], steps[2]);
    RunOneMore(c, s, steps[..3], steps[3]);
    ClaimingGoes(c, s, e);
    ReadsGo(c, s.(rows := s.rows[e := TAKEN]), e, s.claims);
  }

  lemma ClaimingGoes(c: Config, s: State, e: nat)
    requires IsFresh(s, e)
    ensures Do(c, s, ClaimEvent(e, 0, 0, 1))
            == s.(rows := s.rows[e := TAKEN], claims := s.claims[FirstClaim(e) := Claimed])
  {
    hide Effective, OutboxLifecycle.Step;
    TakesTheClaim(c.maxAttempts);
  }

  lemma ReadsGo(c: Config, s: State, e: nat, claims: map<(nat, nat), Phase>)
    requires e < |s.db.events|
    requires s.db.events[e].message in s.db.messages && s.db.events[e].message in s.db.participants
    ensures var k, id := FirstClaim(e), s.db.events[e].message;
            var s1 := Do(c, s.(claims := claims[k := Claimed]), LoadRow(k));
            Do(c, Do(c, s1, LoadParticipants(k)), LoadMemberships(k))
            == s.(claims := claims[k := Loaded(s.db.messages[id], Projected(s.db, id))])
  {
    hide Do, Projected;
    var k, row, bags := FirstClaim(e), s.db.messages[s.db.events[e].message], s.db.participants[s.db.events[e].message];
    RowIsRead(c, s.(claims := claims[k := Claimed]), k);
    assert claims[k := Claimed][k := ReadRow(row)] == claims[k := ReadRow(row)];
    ParticipantsAreRead(c, s.(claims := claims[k := ReadRow(row)]), k);
    assert claims[k := ReadRow(row)][k := ReadParticipants(row, bags)] == claims[k := ReadParticipants(row, bags)];
    MembershipsAreRead(c, s.(claims := claims[k := ReadParticipants(row, bags)]), k);
  }

  lemma RowIsRead(c: Config, s: State, k: (nat, nat))
    requires k in s.claims && s.claims[k].Claimed? && k.0 < |s.db.events| && s.db.events[k.0].message in s.db.messages
    ensures Do(c, s, LoadRow(k)) == s.(claims := s.claims[k := ReadRow(s.db.messages[s.db.events[k.0].message])])
  {
  }

  lemma ParticipantsAreRead(c: Config, s: State, k: (nat, nat))
    requires k in s.claims && s.claims[k].ReadRow? && k.0 < |s.db.events|
    requires s.db.events[k.0].message in s.db.participants
    ensures var bags := s.db.participants[s.db.events[k.0].message];
            Do(c, s, LoadParticipants(k)) == s.(claims := s.claims[k := ReadParticipants(s.claims[k].row, bags)])
  {
  }

  lemma MembershipsAreRead(c: Config, s: State, k: (nat, nat))
    requires k in s.claims && s.claims[k].ReadParticipants? && k.0 < |s.db.events|
    requires var id := s.db.events[k.0].message;
             && id in s.db.messages && id in s.db.participants
             && s.claims[k].row == s.db.messages[id] && s.claims[k].bags == s.db.participants[id]
    ensures var id := s.db.events[k.0].message;
            Do(c, s, LoadMemberships(k)) == s.(claims := s.claims[k := Loaded(s.db.messages[id], Projected(s.db, id))])
  {
    hide Folders;
  }

  /** The state once the worker that claimed event e has indexed. */
  function AfterIndexing(s: State, e: nat): State
    requires IsFresh(s, e)
  {
    var id := s.db.events[e].message;
    var document, version := Projected(s.db, id), s.db.events[e].version;
    StoreDocument(s, document, version).(
      rows := s.rows[e := TAKEN], claims := s.claims[FirstClaim(e) := Indexed(s.db.messages[id])],
      inFlight := s.inFlight + {(document, version)}, log := s.log + [DidIndex(FirstClaim(e))])
  }

  lemma IndexingGoes(c: Config, s: State, e: nat)
    requires IsFresh(s, e)
    ensures RunFrom(c, s, Indexing(e)) == AfterIndexing(s, e)
  {
    hide Effective, OutboxLifecycle.Step, Projected, StoreDocument;
    var steps, k, id := Indexing(e), FirstClaim(e), s.db.events[e].message;
    assert steps == steps[..4] + [steps[4]];
    LoadingGoes(c, s, e);
    RunOneMore(c, s, steps[..4], steps[4]);
    var loaded := s.(rows := s.rows[e := TAKEN],
                     claims := s.claims[k := Loaded(s.db.messages[id], Projected(s.db, id))]);
    SameIndexSameStore(s, loaded, Projected(s.db, id), s.db.events[e].version);
    assert loaded.claims[k := Indexed(s.db.messages[id])] == s.claims[k := Indexed(s.db.messages[id])];
  }

  lemma SameIndexSameStore(s: State, t: State, d: Document, v: nat)
    requires t == s.(rows := t.rows, claims := t.claims)
    ensures StoreDocument(t, d, v) == StoreDocument(s, d, v).(rows := t.rows, claims := t.claims)
  {
  }

  function AfterFinishing(c: Config, s: State, e: nat, row: Row): State
    requires e < |s.rows| == |s.db.events|
  {
    var k, id := FirstClaim(e), s.db.events[e].message;
    if Exempt(c, row)
    then s.(rows := s.rows[e := COMPLETED], claims := s.claims - {k}, log := s.log + [DidFinish(k, row)])
    else s.(rows := s.rows[e := COMPLETED], claims := s.claims - {k},
            jobs := WithJob(s.jobs, id, row.version, LiveInput(row)),
            log := s.log + [DidEnqueue(k, row.version)] + [DidFinish(k, row)])
  }

  lemma FinishingGoes(c: Config, s: State, e: nat, row: Row)
    requires e < |s.rows| == |s.db.events| && s.rows[e] == TAKEN
    requires FirstClaim(e) in s.claims && s.claims[FirstClaim(e)] == Indexed(row)
    ensures RunFrom(c, s, Finishing(e)) == AfterFinishing(c, s, e, row)
  {
    hide Effective, OutboxLifecycle.Step, WithJob, LiveInput;
    TakesTheClaim(c.maxAttempts);
    var steps, k := Finishing(e), FirstClaim(e);
    assert steps[..1] == [] + [steps[0]] && steps == steps[..1] + [steps[1]];
    RunOneMore(c, s, [], steps[0]);
    RunOneMore(c, s, steps[..1], steps[1]);
    assert s.claims[k := Enqueued(row)] - {k} == s.claims - {k};
  }

  // --- a finished projection that lost its vector ---------------------------------------

  const FIRST := Mutate([Deliver(0, 1, ProviderMessage("", NO_PATCH))], 0)
  const SECOND := Mutate([Deliver(0, 1, ProviderMessage("", NO_PATCH.(isRead := Val(true))))], 0)

  const UNREAD := Row(1, false, BLANK_FIELDS)
  const READ := Row(2, false, BLANK_FIELDS.(isRead := true))

  const ARRIVED := Db(map["" := UNREAD], map["" := NO_BAGS], map[(0, "") := 1], [Event("", 1, Created)])
  const CHANGED := Db(map["" := READ], map["" := NO_BAGS], map[(0, "") := 1],
                      [Event("", 1, Created), Event("", 2, Updated)])

  lemma FirstDelivery()
    ensures ApplyAll(EMPTY_DB, FIRST.changes) == ARRIVED
  {
    assert FIRST.changes[..0] == [];
    assert ApplyAll(EMPTY_DB, FIRST.changes) == ApplyChange(EMPTY_DB, FIRST.changes[0]);
    RecipientUpdatesCompose(NO_BAGS, NO_PATCH, NO_PATCH);
    FieldUpdatesCompose(BLANK_FIELDS, NO_PATCH, NO_PATCH);
  }

  lemma SecondDelivery()
    ensures ApplyAll(ARRIVED, SECOND.changes) == CHANGED
  {
    assert SECOND.changes[..0] == [];
    assert ApplyAll(ARRIVED, SECOND.changes) == ApplyChange(ARRIVED, SECOND.changes[0]);
  }

  /** Both deliveries are committed before a worker gets to the first event. The embedding of the current
      version is stored after the first indexing; the second one replaces the document, and the queue
      refuses the job that would embed it again, because it still keeps one of that name. */
  function LosingRun(): seq<Step> {
    [FIRST, SECOND] + Indexing(0) + Finishing(0) + [RunJob("", 2, true)] + Indexing(1) + Finishing(1)
  }

  const BACKLOG := State(CHANGED, [OutboxLifecycle.Created(0), OutboxLifecycle.Created(0)], map[], map[], {}, {}, map[],
                         map[("", 1) := UNREAD, ("", 2) := READ], [], [])

  lemma TheDocuments()
    ensures Projected(ARRIVED, "").id == Projected(CHANGED, "").id == ""
    ensures Projected(ARRIVED, "").version == 1 && Projected(CHANGED, "").version == 2
  {
  }

  lemma OneStep(c: Config, s: State, step: Step)
    ensures RunFrom(c, s, [step]) == Do(c, s, step)
  {
    assert [step] == [] + [step];
    RunOneMore(c, s, [], step);
  }

  lemma MutationGoes(c: Config, s: State, changes: seq<Change>, now: Time)
    ensures RunFrom(c, s, [Mutate(changes, now)]) == Mutated(s, ApplyAll(s.db, changes), now)
  {
    hide ApplyAll, Mutated;
    OneStep(c, s, Mutate(changes, now));
  }

  lemma OneFreshRow()
    ensures FreshRows(1, 0) == [OutboxLifecycle.Created(0)]
  {
  }

  lemma TheRows()
    ensures RowsNow(ARRIVED) == map[("", 1) := UNREAD] && RowsNow(CHANGED) == map[("", 2) := READ]
  {
    RowsNowAt(ARRIVED, ("", 1));
    RowsNowAt(CHANGED, ("", 2));
  }

  lemma ArrivalGoes(c: Config)
    ensures RunFrom(c, START, [FIRST])
            == START.(db := ARRIVED, rows := [OutboxLifecycle.Created(0)], past := map[("", 1) := UNREAD])
  {
    hide ApplyAll, RunFrom, RowsNow, FreshRows, OutboxLifecycle.Created;
    FirstDelivery();
    MutationGoes(c, START, FIRST.changes, 0);
    OneFreshRow();
    TheRows();
    assert START.rows + [OutboxLifecycle.Created(0)] == [OutboxLifecycle.Created(0)];
    assert START.past + map[("", 1) := UNREAD] == map[("", 1) := UNREAD];
  }

  lemma ChangeGoes(c: Config, s: State)
    requires s.db == ARRIVED
    ensures RunFrom(c, s, [SECOND])
            == s.(db := CHANGED, rows := s.rows + [OutboxLifecycle.Created(0)], past := s.past + map[("", 2) := READ])
  {
    hide ApplyAll, RunFrom, RowsNow, FreshRows, OutboxLifecycle.Created;
    SecondDelivery();
    MutationGoes(c, s, SECOND.changes, 0);
    OneFreshRow();
    TheRows();
  }

  lemma BacklogGoes(c: Config)
    ensures RunFrom(c, START, [FIRST, SECOND]) == BACKLOG
  {
    hide ApplyAll, RunFrom;
    assert [FIRST, SECOND] == [FIRST] + [SECOND];
    ArrivalGoes(c);
    RunAppends(c, START, [FIRST], [SECOND]);
    ChangeGoes(c, RunFrom(c, START, [FIRST]));
  }

  /** The first event is DONE and the vector of the current document is stored. */
  ghost predicate Embedded(c: Config, s: State) {
    && s.db == CHANGED && s.rows == [COMPLETED, OutboxLifecycle.Created(0)] && s.claims == map[]
    && s.jobs == map[("", 2) := Job(LiveInput(READ), true)]
    && s.index == map["" := Entry(1 + c.bump, Projected(CHANGED, ""), Some(Vector(2, LiveInput(READ), Live)))]
  }

  lemma FirstEventIsEmbedded(c: Config)
    requires c.queueing
    ensures Embedded(c, RunFrom(c, BACKLOG, Indexing(0) + Finishing(0) + [RunJob("", 2, true)]))
  {
    hide RunFrom, LiveInput, Projected;
    RunAppends(c, BACKLOG, Indexing(0) + Finishing(0), [RunJob("", 2, true)]);
    RunAppends(c, BACKLOG, Indexing(0), Finishing(0));
    IndexingGoes(c, BACKLOG, 0);
    var indexed := AfterIndexing(BACKLOG, 0);
    FinishingGoes(c, indexed, 0, READ);
    TheDocuments();
    OneStep(c, AfterFinishing(c, indexed, 0, READ), RunJob("", 2, true));
  }

  lemma SecondEventDropsTheVector(c: Config, s: State)
    requires c.queueing && Embedded(c, s)
    ensures var t := RunFrom(c, s, Indexing(1) + Finishing(1));
            && t.db == CHANGED && t.rows == [COMPLETED, COMPLETED] && t.claims == map[] && t.jobs == s.jobs
            && "" in t.index && t.index[""].source == Projected(CHANGED, "")
            && (t.index[""].vector.None? <==> c.bump <= 1)
  {
    hide RunFrom, LiveInput, Projected;
    RunAppends(c, s, Indexing(1), Finishing(1));
    IndexingGoes(c, s, 1);
    TheDocuments();
    FinishingGoes(c, AfterIndexing(s, 1), 1, READ);
  }

  /** DONE does not promise a vector. In a run from the start every event is DONE, no worker is at work,
      every job ran, and the index holds the current document: without its vector, as long as a vector
      write adds at most one to the external version. */
  lemma AllDoneAndTheVectorIsLost(c: Config)
    requires c.queueing
    ensures var s := Reached(c, LosingRun());
            && |s.rows| == 2 && (forall e :: 0 <= e < |s.rows| ==> s.rows[e].row.payload.status.Done?)
            && s.claims == map[] && ("", 2) in s.jobs && (forall k :: k in s.jobs ==> s.jobs[k].ran)
            && VersionOf(s.db, "") == 2 && "" in s.db.messages && "" in s.db.participants
            && "" in s.index && s.index[""].source == Projected(s.db, "")
            && (s.index[""].vector.None? <==> c.bump <= 1)
  {
    hide RunFrom, Projected;
    var middle := Indexing(0) + Finishing(0) + [RunJob("", 2, true)];
    assert LosingRun() == [FIRST, SECOND] + middle + (Indexing(1) + Finishing(1));
    RunAppends(c, START, [FIRST, SECOND] + middle, Indexing(1) + Finishing(1));
    RunAppends(c, START, [FIRST, SECOND], middle);
    BacklogGoes(c);
    FirstEventIsEmbedded(c);
    SecondEventDropsTheVector(c, RunFrom(c, BACKLOG, middle));
  }

  // --- convergence rests on the external version ----------------------------------------

  /** Every finished event of a current version has the current document in the index. */
  ghost predicate Converged(s: State) {
    forall e :: FinishedCurrent(s, e) ==> HoldsCurrent(s, s.db.events[e].message)
  }

  ghost predicate FinishedCurrent(s: State, e: int) {
    && 0 <= e < |s.rows| && e < |s.db.events| && s.rows[e].row.payload.status.Done?
    && s.db.events[e].version == VersionOf(s.db, s.db.events[e].message)
  }

  ghost predicate HoldsCurrent(s: State, id: MessageId) {
    && id in s.index && id in s.db.messages && id in s.db.participants
    && s.index[id].source == Projected(s.db, id)
  }

  const READING := Reading("", 1, BackfillInput(UNREAD))

  /** A backfill embeds the first version twice before the second one is indexed. */
  function BackfilledTwice(): seq<Step> {
    [BackfillRead(""), BackfillWrite(READING), BackfillWrite(READING)]
  }

  function RefusedRun(): seq<Step> {
    [FIRST] + Indexing(0) + BackfilledTwice() + [SECOND] + (Indexing(1) + Finishing(1))
  }

  lemma BackfillGoes(c: Config, s: State)
    requires s.db == ARRIVED && "" in s.index && s.index[""].source.version == 1
    ensures var t := RunFrom(c, s, BackfilledTwice());
            && t.db == s.db && t.rows == s.rows && t.claims == s.claims && t.jobs == s.jobs
            && "" in t.index && t.index[""].external == s.index[""].external + c.bump + c.bump
            && t.index[""].source == s.index[""].source
  {
    hide BackfillInput;
    var steps := BackfilledTwice();
    assert steps[..1] == [] + [steps[0]] && steps[..2] == steps[..1] + [steps[1]] && steps == steps[..2] + [steps[2]];
    RunOneMore(c, s, [], steps[0]);
    RunOneMore(c, s, steps[..1], steps[1]);
    RunOneMore(c, s, steps[..2], steps[2]);
  }

  lemma RefusedRunDoesNotConverge(c: Config)
    requires c.bump > 0
    ensures !Converged(Reached(c, RefusedRun()))
  {
    hide RunFrom, Projected, LiveInput, WithJob;
    RunAppends(c, START, [FIRST] + Indexing(0) + BackfilledTwice() + [SECOND], Indexing(1) + Finishing(1));
    RunAppends(c, START, [FIRST] + Indexing(0) + BackfilledTwice(), [SECOND]);
    RunAppends(c, START, [FIRST] + Indexing(0), BackfilledTwice());
    RunAppends(c, START, [FIRST], Indexing(0));
    ArrivalGoes(c);
    var s := RunFrom(c, START, [FIRST]);
    IndexingGoes(c, s, 0);
    TheDocuments();
    BackfillGoes(c, AfterIndexing(s, 0));
    var embedded := RunFrom(c, AfterIndexing(s, 0), BackfilledTwice());
    ChangeGoes(c, embedded);
    var changed := RunFrom(c, embedded, [SECOND]);
    RunAppends(c, changed, Indexing(1), Finishing(1));
    IndexingGoes(c, changed, 1);
    FinishingGoes(c, AfterIndexing(changed, 1), 1, READ);
    var t := RunFrom(c, AfterIndexing(changed, 1), Finishing(1));
    assert FinishedCurrent(t, 1) && t.index[""].source.version == 1;
    assert !HoldsCurrent(t, t.db.events[1].message);
  }

  /** Index convergence holds over every run if and only if a vector write leaves the external version
      alone: otherwise the document of a later version can be refused, and its event is DONE all the same. */
  lemma ConvergesIffUpdatesDoNotBump(c: Config)
    ensures (forall steps :: Converged(Reached(c, steps))) <==> c.bump == 0
  {
    hide Reached, Converged;
    if c.bump == 0 {
      forall steps ensures Converged(Reached(c, steps)) {
        EveryRunConverges(c, steps);
      }
    } else {
      RefusedRunDoesNotConverge(c);
    }
  }

  lemma EveryRunConverges(c: Config, steps: seq<Step>)
    requires c.bump == 0
    ensures Converged(Reached(c, steps))
  {
    hide Reached, Projected;
    var s := Reached(c, steps);
    forall e | FinishedCurrent(s, e) ensures HoldsCurrent(s, s.db.events[e].message) {
      IndexConverges(c, steps, e);
    }
  }
}
