/** The outbox worker itself: claim, read, index, enqueue, finish, with its error classification,
    run on the projection system while everybody else keeps stepping in between. */
module OutboxProcessing {
  import opened Leases
  import opened OutboxLifecycle
  import opened MailData
  import opened MessageProcessing
  import opened Projection
  import opened Convergence
  import opened EnqueueOrder

  // --- Elasticsearch --------------------------------------------------------------------

  /** The documents of one tenant's index. */
  class SearchIndex {
    var entries: map<MessageId, Entry>
    const bump: nat

    constructor (bump: nat)
      ensures entries == map[] && this.bump == bump
    {
      entries := map[];
      this.bump := bump;
    }

    method IndexMessage(document: Document, version: nat) returns (conflict: bool)
      modifies this
      ensures entries == IndexWrite(old(entries), document, version)
      ensures entries == if conflict then old(entries) else old(entries)[document.id := Entry(version, document, None)]
      ensures conflict <==> document.id in old(entries) && old(entries)[document.id].external > version
    {
      conflict := document.id in entries && entries[document.id].external > version;
      if !conflict {
        entries := entries[document.id := Entry(version, document, None)];
      }
    }

    /** True also when the script skipped the document. */
    method UpdateEmbeddings(id: MessageId, vector: Vector) returns (ok: bool)
      modifies this
      ensures entries == VectorWrite(old(entries), id, vector, bump)
      ensures if id in old(entries) && old(entries)[id].source.version <= vector.version then
                var was := old(entries)[id];
                entries == old(entries)[id := Entry(was.external + bump, was.source, Some(vector))]
              else
                entries == old(entries)
      ensures ok <==> id in old(entries)
    {
      ok := id in entries;
      if ok && entries[id].source.version <= vector.version {
        entries := entries[id := Entry(entries[id].external + bump, entries[id].source, Some(vector))];
      }
    }
  }

  // --- everybody else -------------------------------------------------------------------

  /** A step in the name of this claim. */
  predicate Mine(step: Step, k: (nat, nat)) {
    (step.LoadRow? || step.LoadParticipants? || step.LoadMemberships? || step.IndexDocument? || step.LoseAnswer?
     || step.EnqueueEmbedding? || step.Finish? || step.GiveUp? || step.Retry? || step.Crash?) && step.claim == k
  }

  lemma ClaimingKeepsOthers(c: Config, s: State, step: Step, k: (nat, nat))
    requires RowsConsistent(c, s) && k in s.claims && Enabled(c, s, step) && step.ClaimEvent?
    ensures var t := Next(c, s, step); k in t.claims && t.claims[k] == s.claims[k]
  {
    assert k.0 < |s.rows| && Consistent(s.rows[k.0], c.maxAttempts);
  }

  lemma OthersKeepMyClaim(c: Config, s: State, step: Step, k: (nat, nat))
    requires RowsConsistent(c, s) && k in s.claims && !Mine(step, k)
    ensures k in Do(c, s, step).claims && Do(c, s, step).claims[k] == s.claims[k]
  {
    hide ApplyAll, RowsNow, IndexWrite, VectorWrite, BuildDocument, LiveInput, BackfillInput, Folders, FreshRows,
         WithJob, OutboxLifecycle.Step, Effective, RowsConsistent, BagsOf, Exempt, AcceptsDocument, AcceptsVector;
    if step.ClaimEvent? && Enabled(c, s, step) {
      ClaimingKeepsOthers(c, s, step, k);
    }
  }

  lemma OnlyMutationsTouchTables(c: Config, s: State, step: Step)
    requires Enabled(c, s, step) && !step.Mutate?
    ensures Next(c, s, step).db == s.db && |Next(c, s, step).rows| == |s.rows|
  {
    hide IndexWrite, VectorWrite, BuildDocument, LiveInput, BackfillInput, Folders, WithJob, OutboxLifecycle.Step,
         Effective, BagsOf, Exempt, AcceptsDocument, AcceptsVector;
  }

  lemma {:induction false} RowsMatchEvents(c: Config, steps: seq<Step>)
    ensures |Reached(c, steps).rows| == |Reached(c, steps).db.events|
  {
    hide Next, Enabled;
    if steps != [] {
      var n := |steps| - 1;
      var s := Reached(c, steps[..n]);
      RowsMatchEvents(c, steps[..n]);
      if steps[n].Mutate? {
        MutationMatches(c, s, steps[n]);
      } else if Enabled(c, s, steps[n]) {
        OnlyMutationsTouchTables(c, s, steps[n]);
      }
    }
  }

  lemma MutationMatches(c: Config, s: State, step: Step)
    requires step.Mutate? && |s.rows| == |s.db.events|
    ensures var t := Do(c, s, step); |t.rows| == |t.db.events| && s.db.events <= t.db.events
  {
    hide ApplyAll, RowsNow;
    EventsAreAppended(s.db, step.changes);
  }

  lemma EventsStay(c: Config, s: State, step: Step)
    ensures s.db.events <= Do(c, s, step).db.events
  {
    if step.Mutate? {
      hide ApplyAll, RowsNow, FreshRows;
      EventsAreAppended(s.db, step.changes);
    } else if Enabled(c, s, step) {
      hide Next, Enabled;
      OnlyMutationsTouchTables(c, s, step);
    }
  }

  /** What a claim is known by: its worker, the attempts recorded before it, and when its lease ends if nobody
      is to take it over before. */
  datatype Tenure = Tenure(worker: Worker, attempts: nat, until: Option<Time>)

  ghost predicate Kept(row: EventState, version: nat, tenure: Tenure) {
    tenure.until.Some? ==>
      && row.row.lease == Lease(Some(tenure.worker), tenure.until, version)
      && row.row.payload.status.InFlight? && row.row.payload.attemptCount == tenure.attempts
      && version in row.seen && row.seen[version] == tenure.attempts
  }

  /** Nobody who claims the event has a clock beyond the end of the lease. */
  ghost predicate Unhurried(wanted: seq<Step>, event: nat, tenure: Tenure) {
    tenure.until.Some? ==>
      forall step :: step in wanted && step.ClaimEvent? && step.event == event ==> step.now <= tenure.until.value
  }

  lemma KeptRowRefuses(row: EventState, version: nat, tenure: Tenure, m: Move, maxAttempts: int)
    requires Kept(row, version, tenure) && tenure.until.Some?
    requires if m.Claim? then m.now <= tenure.until.value else m.version != version
    ensures !Effective(row, m, maxAttempts)
  {
  }

  lemma OthersKeepTheLease(c: Config, s: State, step: Step, k: (nat, nat), tenure: Tenure)
    requires k.0 < |s.rows| && Kept(s.rows[k.0], k.1, tenure) && !Mine(step, k)
    requires step.ClaimEvent? && step.event == k.0 && tenure.until.Some? ==> step.now <= tenure.until.value
    ensures k.0 < |Do(c, s, step).rows| && Kept(Do(c, s, step).rows[k.0], k.1, tenure)
  {
    hide Kept, Effective, OutboxLifecycle.Step;
    if Enabled(c, s, step) && tenure.until.Some? {
      if step.Mutate? {
        hide ApplyAll, RowsNow;
      } else if MovesRow(step) {
        var m := if step.ClaimEvent? then Claim(step.worker, step.now, step.duration) else MoveOf(step);
        hide Next;
        RowMovesMoveOneRow(c, s, step, m);
        if (if step.ClaimEvent? then step.event else step.claim.0) == k.0 {
          KeptRowRefuses(s.rows[k.0], k.1, tenure, m, c.maxAttempts);
          RefusedMovesNothing(s.rows[k.0], m, c.maxAttempts);
        }
      } else {
        hide Next, Enabled;
        OnlyRowMovesTouchRows(c, s, step);
      }
    }
    if tenure.until.None? {
      RowsAreNotLost(c, s, step);
      AnyRowIsKept(Do(c, s, step).rows[k.0], k.1, tenure);
    }
  }

  lemma AnyRowIsKept(row: EventState, version: nat, tenure: Tenure)
    requires tenure.until.None?
    ensures Kept(row, version, tenure)
  {
  }

  lemma RefusedMovesNothing(row: EventState, m: Move, maxAttempts: int)
    requires !Effective(row, m, maxAttempts)
    ensures OutboxLifecycle.Step(row, m, maxAttempts) == row
  {
  }

  lemma RowMovesMoveOneRow(c: Config, s: State, step: Step, m: Move)
    requires Enabled(c, s, step) && MovesRow(step)
    requires m == if step.ClaimEvent? then Claim(step.worker, step.now, step.duration) else MoveOf(step)
    ensures var e := if step.ClaimEvent? then step.event else step.claim.0;
            && e < |s.rows|
            && Next(c, s, step).rows == s.rows[e := OutboxLifecycle.Step(s.rows[e], m, c.maxAttempts)]
  {
    hide Effective, OutboxLifecycle.Step;
  }

  lemma RowsAreNotLost(c: Config, s: State, step: Step)
    ensures |s.rows| <= |Do(c, s, step).rows|
  {
    hide Effective, OutboxLifecycle.Step;
    if Enabled(c, s, step) {
      if step.Mutate? {
        hide ApplyAll, RowsNow;
      } else {
        hide Next, Enabled;
        OnlyMutationsTouchTables(c, s, step);
      }
    }
  }

  // --- the shared platform --------------------------------------------------------------

  /** PostgreSQL, Elasticsearch and the job queue, as the workers share them. */
  class Platform {
    const config: Config
    const search: SearchIndex
    var db: Db
    var rows: seq<EventState>
    var claims: map<(nat, nat), Phase>
    var jobs: map<(MessageId, nat), Job>
    var readings: set<Reading>
    var inFlight: set<(Document, nat)>
    var past: map<(MessageId, nat), Row>
    var log: seq<Note>
    var writes: seq<IndexEvent>
    var trace: seq<Step>

    constructor (config: Config)
      ensures this.config == config && AsRun() && trace == [] && fresh(search)
    {
      this.config := config;
      search := new SearchIndex(config.bump);
      db, rows, claims, past, log, writes, trace := EMPTY_DB, [], map[], map[], [], [], [];
      jobs, readings, inFlight := map[], {}, {};
    }

    function Now(): State
      reads this, search
    {
      State(db, rows, claims, jobs, readings, inFlight, search.entries, past, log, writes)
    }

    ghost predicate AsRun()
      reads this, search
    {
      Now() == Reached(config, trace) && search.bump == config.bump
    }

    /** The claim got this far, and its lease is still what it was granted. */
    ghost predicate Holds(k: (nat, nat), p: Phase, tenure: Tenure)
      reads this
    {
      k in claims && claims[k] == p && k.0 < |rows| == |db.events| && Kept(rows[k.0], k.1, tenure)
    }

    /** One step of anybody. */
    method Perform(step: Step)
      requires AsRun()
      modifies this, search
      ensures AsRun() && trace == old(trace) + [step]
      ensures Now() == Do(config, old(Now()), step)
      ensures |rows| == |db.events| && old(db.events) <= db.events
    {
      hide Next, Enabled, Reached;
      ghost var before := Now();
      if Enabled(config, Now(), step) {
        var t := Next(config, Now(), step);
        WhatReachesTheIndex(config, before, step);
        WriteIndex(step);
        db, rows, claims, jobs, readings, inFlight := t.db, t.rows, t.claims, t.jobs, t.readings, t.inFlight;
        past, log, writes := t.past, t.log, t.writes;
      }
      EventsStay(config, before, step);
      OneMore(config, trace, step);
      trace := trace + [step];
      RowsMatchEvents(config, trace);
    }

    /** The call that a step makes to the search index, if it makes one. */
    method WriteIndex(step: Step)
      requires Enabled(config, Now(), step) && search.bump == config.bump
      modifies search
      ensures search.entries == IndexAfter(config, old(Now()), step)
    {
      hide ApplyAll, Effective;
      match step
      case IndexDocument(k) => var _ := search.IndexMessage(claims[k].document, db.events[k.0].version);
      case Arrive(document, version) => var _ := search.IndexMessage(document, version);
      case RunJob(id, version, _) =>
        var vector := Vector(version, jobs[(id, version)].input, Live);
        var _ := search.UpdateEmbeddings(id, vector);
      case BackfillWrite(r) => var _ := search.UpdateEmbeddings(r.message, Vector(r.version, r.input, Backfill));
      case _ =>
    }

    /** Whatever the others want to do now, short of acting in this worker's name. */
    method Others(wanted: seq<Step>, k: (nat, nat), ghost p: Phase, ghost tenure: Tenure)
      requires AsRun() && Holds(k, p, tenure) && Unhurried(wanted, k.0, tenure)
      modifies this, search
      ensures AsRun() && Holds(k, p, tenure) && old(trace) <= trace
      ensures old(db.events) <= db.events
    {
      hide Do, Reached;
      for i := 0 to |wanted|
        invariant AsRun() && Holds(k, p, tenure) && old(trace) <= trace
        invariant old(db.events) <= db.events
      {
        if !Mine(wanted[i], k) {
          ReachedLogInv(config, trace);
          OthersKeepMyClaim(config, Now(), wanted[i], k);
          OthersKeepTheLease(config, Now(), wanted[i], k, tenure);
          Perform(wanted[i]);
        }
      }
    }

    method Acquire(event: nat, worker: Worker, now: Time, duration: int) returns (granted: Option<nat>)
      requires AsRun() && event < |rows|
      modifies this, search
      ensures AsRun() && old(trace) <= trace
      ensures granted.Some? <==> Effective(old(rows)[event], Claim(worker, now, duration), config.maxAttempts)
      ensures granted.Some? ==>
                Holds((event, granted.value), Claimed,
                      Tenure(worker, old(rows)[event].row.payload.attemptCount, Some(now + duration)))
      ensures old(db.events) <= db.events
      ensures granted.Some? ==>
                granted.value in rows[event].seen
                && rows[event].seen[granted.value] == old(rows)[event].row.payload.attemptCount
    {
      hide Reached;
      RowsMatchEvents(config, trace);
      var ok := Effective(rows[event], Claim(worker, now, duration), config.maxAttempts);
      Perform(ClaimEvent(event, worker, now, duration));
      granted := if ok then Some(rows[event].row.lease.version) else None;
    }

    /** The three reads, each its own statement. A missing row is the caller's to handle. */
    method LoadMessage(k: (nat, nat), ghost tenure: Tenure) returns (row: Option<Row>)
      requires AsRun() && Holds(k, Claimed, tenure)
      modifies this, search
      ensures AsRun() && old(trace) <= trace && old(db.events) <= db.events
      ensures row.Some? <==> old(db.events[k.0].message in db.messages)
      ensures row.Some? ==> row.value == old(db).messages[old(db.events)[k.0].message]
      ensures row.Some? ==> trace == old(trace) + [LoadRow(k)]
      ensures Holds(k, if row.Some? then ReadRow(row.value) else Claimed, tenure)
      ensures log == old(log)
    {
      hide Reached;
      var id := db.events[k.0].message;
      if id !in db.messages {
        return None;
      }
      row := Some(db.messages[id]);
      Perform(LoadRow(k));
    }

    method LoadParticipantsOf(k: (nat, nat), row: Row, ghost tenure: Tenure) returns (bags: Bags)
      requires AsRun() && Holds(k, ReadRow(row), tenure)
      modifies this, search
      ensures AsRun() && old(trace) <= trace && old(db.events) <= db.events && log == old(log)
      ensures bags == BagsOf(old(db), old(db.events)[k.0].message)
      ensures Holds(k, ReadParticipants(row, bags), tenure)
    {
      hide Reached;
      bags := BagsOf(db, db.events[k.0].message);
      Perform(LoadParticipants(k));
    }

    method LoadDocument(k: (nat, nat), row: Row, bags: Bags, ghost tenure: Tenure) returns (document: Document)
      requires AsRun() && Holds(k, ReadParticipants(row, bags), tenure)
      modifies this, search
      ensures AsRun() && old(trace) <= trace && old(db.events) <= db.events && log == old(log)
      ensures document == BuildDocument(old(db.events)[k.0].message, row, bags,
                  Folders(old(db), old(db.events)[k.0].message))
      ensures Holds(k, Loaded(row, document), tenure)
    {
      hide Reached, Folders;
      var id := db.events[k.0].message;
      document := BuildDocument(id, row, bags, Folders(db, id));
      Perform(LoadMemberships(k));
    }

    method PutDocument(k: (nat, nat), row: Row, document: Document, ghost tenure: Tenure)
      requires AsRun() && Holds(k, Loaded(row, document), tenure)
      modifies this, search
      ensures AsRun() && old(trace) <= trace && old(db.events) <= db.events
      ensures Holds(k, Indexed(row), tenure)
    {
      hide Reached, Folders, BuildDocument;
      Perform(IndexDocument(k));
    }

    /** The document is on its way, and the client gave up waiting. */
    method SendWithoutAnswer(k: (nat, nat), row: Row, document: Document, ghost tenure: Tenure)
      requires AsRun() && Holds(k, Loaded(row, document), tenure)
      modifies this, search
      ensures AsRun() && old(trace) <= trace && old(db.events) <= db.events
      ensures Holds(k, Loaded(row, document), tenure) && (document, db.events[k.0].version) in inFlight
    {
      hide Reached, Folders, BuildDocument;
      Perform(LoseAnswer(k));
    }

    method EnqueueJob(k: (nat, nat), row: Row, works: bool, landed: bool, ghost tenure: Tenure)
      requires AsRun() && Holds(k, Indexed(row), tenure) && !Exempt(config, row)
      modifies this, search
      ensures AsRun() && old(trace) <= trace && old(db.events) <= db.events
      ensures Holds(k, if works then Enqueued(row) else EnqueueFailed, tenure)
      ensures works ==> (db.events[k.0].message, row.version) in jobs
    {
      hide Reached, LiveInput;
      Perform(EnqueueEmbedding(k, works, landed));
    }

    /** The last statement of a claim: the compare-and-set that settles it. */
    method SettleClaim(step: Step, ghost p: Phase, ghost tenure: Tenure) returns (ok: bool)
      requires AsRun() && MovesRow(step) && !step.ClaimEvent?
      requires Holds(step.claim, p, tenure) && Enabled(config, Now(), step)
      modifies this, search
      ensures AsRun() && old(trace) < trace && trace[|trace| - 1] == step
      ensures ok <==> Effective(old(rows)[step.claim.0], MoveOf(step), config.maxAttempts)
      ensures old(db.events) <= db.events
      ensures rows == old(rows)[step.claim.0 := OutboxLifecycle.Step(old(rows)[step.claim.0], MoveOf(step),
                  config.maxAttempts)]
      ensures step.Finish? && ok ==> log == old(log) + [DidFinish(step.claim, old(claims)[step.claim].row)]
      ensures !(step.Finish? && ok) ==> log == old(log)
    {
      hide Reached, OutboxLifecycle.Step, Effective;
      ok := Effective(rows[step.claim.0], MoveOf(step), config.maxAttempts);
      Perform(step);
    }
  }

  // --- one event ------------------------------------------------------------------------

  datatype Provisioning = Provisioned | ProvisioningRetryable | ProvisioningFatal

  /** What the index write reported. A write that timed out or failed unaccountably may still arrive. */
  datatype IndexReply = Accepted | Refused | Unavailable(retryAfter: Option<int>) | Unclassified | Unsuccessful

  /** What the worker cannot foresee. */
  datatype World = World(
    others: nat -> seq<Step>, clock: nat -> Time, supported: bool, sameTenant: bool,
    provisioning: Provisioning, reply: IndexReply, enqueueWorks: bool, enqueueLands: bool)

  /** The claim, the row that was read under it, and the step that settled it. */
  datatype Report = Report(done: bool, version: Option<nat>, row: Option<Row>, settled: Option<Step>)

  /** A time span given in seconds. */
  function Microseconds(seconds: real): int {
    (seconds * 1000000.0).Floor
  }

  /** A server that names its own delay is obeyed. */
  function DelayFor(w: World, attempt: nat, baseSeconds: real, maxSeconds: real): int {
    if w.provisioning.Provisioned? && w.reply.Unavailable? && w.reply.retryAfter.Some? then w.reply.retryAfter.value
    else Microseconds(BackoffDelay(attempt, baseSeconds, maxSeconds))
  }

  // --- what a report says ---------------------------------------------------------------

  /** Nobody's clock passes the end of this lease while the worker is at work. */
  ghost predicate InTime(world: World, event: nat, tenure: Tenure) {
    forall turn: nat :: Unhurried(world.others(turn), event, tenure)
  }

  /** Within these steps the claim read this row of the message from the tables. */
  ghost predicate WasRead(c: Config, trace: seq<Step>, from: nat, k: (nat, nat), id: MessageId, row: Row) {
    exists n :: from <= n < |trace| && ReadAt(c, trace, n, k, id, row)
  }

  ghost predicate ReadAt(c: Config, trace: seq<Step>, n: nat, k: (nat, nat), id: MessageId, row: Row)
    requires n < |trace|
  {
    var tables := Reached(c, trace[..n]).db.messages;
    trace[n] == LoadRow(k) && id in tables && tables[id] == row
  }

  /** Within these steps the queue held the job that embeds this version. */
  ghost predicate WasQueued(c: Config, trace: seq<Step>, from: nat, id: MessageId, version: nat) {
    exists n :: from <= n <= |trace| && (id, version) in Reached(c, trace[..n]).jobs
  }

  lemma InTimeAt(world: World, event: nat, tenure: Tenure, turn: nat)
    requires InTime(world, event, tenure)
    ensures Unhurried(world.others(turn), event, tenure)
  {
  }

  /** What the worker may rely on after its claim: the end of its lease counts if nobody is late. */
  function TenureFor(row: EventState, worker: Worker, duration: int, world: World): Tenure {
    Tenure(worker, row.row.payload.attemptCount, Some(world.clock(0) + duration))
  }

  ghost function TenureOf(row: EventState, worker: Worker, duration: int, world: World, event: nat): (tenure: Tenure)
    ensures InTime(world, event, tenure) && tenure.worker == worker
    ensures var whole := TenureFor(row, worker, duration, world);
            InTime(world, event, whole) ==> tenure == whole
  {
    var tenure := TenureFor(row, worker, duration, world);
    if InTime(world, event, tenure) then tenure else tenure.(until := None)
  }

  lemma TenureIsSound(platform: Platform, k: (nat, nat), row: EventState, worker: Worker, duration: int, world: World)
    requires platform.Holds(k, Claimed, TenureFor(row, worker, duration, world))
    ensures platform.Holds(k, Claimed, TenureOf(row, worker, duration, world, k.0))
  {
    hide InTime;
  }

  lemma HeldClaimsHaveEvents(platform: Platform, k: (nat, nat), p: Phase, tenure: Tenure)
    requires platform.Holds(k, p, tenure)
    ensures k.0 < |platform.db.events|
  {
  }

  lemma RowsMatch(platform: Platform)
    requires platform.AsRun()
    ensures |platform.rows| == |platform.db.events|
  {
    hide Reached;
    RowsMatchEvents(platform.config, platform.trace);
  }

  lemma ClaimIsGrantedIff(row: EventState, worker: Worker, now: Time, duration: int, maxAttempts: int)
    ensures var e, l := row.row.payload, row.row.lease;
            Effective(row, Claim(worker, now, duration), maxAttempts) <==>
              && (e.status.Pending? || e.status.InFlight?) && e.nextAttemptAt <= now
              && (l.lockedBy.None? || (l.lockedUntil.Some? && l.lockedUntil.value < now))
  {
  }

  lemma {:induction false} TablesStayValid(c: Config, steps: seq<Step>)
    ensures Valid(Reached(c, steps).db)
  {
    hide Next, Enabled, Valid;
    if steps == [] {
      NoTables();
    } else {
      var n := |steps| - 1;
      var s := Reached(c, steps[..n]);
      TablesStayValid(c, steps[..n]);
      if steps[n].Mutate? {
        MutationStaysValid(c, s, steps[n]);
      } else if Enabled(c, s, steps[n]) {
        OnlyMutationsTouchTables(c, s, steps[n]);
      }
    }
  }

  lemma NoTables()
    ensures Valid(EMPTY_DB)
  {
  }

  lemma MutationStaysValid(c: Config, s: State, step: Step)
    requires step.Mutate? && Valid(s.db)
    ensures Valid(Do(c, s, step).db)
  {
    hide ApplyAll, RowsNow, Valid;
    LedgerHolds(s.db, step.changes);
  }

  lemma JobIsQueued(platform: Platform, from: nat, k: (nat, nat), row: Row)
    requires platform.AsRun() && from <= |platform.trace| && k.0 < |platform.db.events|
    requires (platform.db.events[k.0].message, row.version) in platform.jobs
    ensures WasQueued(platform.config, platform.trace, from, platform.db.events[k.0].message, row.version)
  {
    hide Reached;
    assert platform.trace[..|platform.trace|] == platform.trace;
  }

  lemma ReadSince(c: Config, trace: seq<Step>, from: nat, later: nat, k: (nat, nat), id: MessageId, row: Row)
    requires from <= later
    ensures WasRead(c, trace, later, k, id, row) ==> WasRead(c, trace, from, k, id, row)
  {
    hide ReadAt;
  }

  lemma QueuedSince(c: Config, trace: seq<Step>, from: nat, later: nat, id: MessageId, version: nat)
    requires from <= later
    ensures WasQueued(c, trace, later, id, version) ==> WasQueued(c, trace, from, id, version)
  {
    hide Reached;
  }

  lemma ReadStays(c: Config, trace: seq<Step>, more: seq<Step>, from: nat, k: (nat, nat), id: MessageId, row: Row)
    requires WasRead(c, trace, from, k, id, row) && trace <= more
    ensures WasRead(c, more, from, k, id, row)
  {
    hide Reached;
    var n :| from <= n < |trace| && ReadAt(c, trace, n, k, id, row);
    assert more[..n] == trace[..n];
    assert ReadAt(c, more, n, k, id, row);
  }

  lemma QueuedStays(c: Config, trace: seq<Step>, more: seq<Step>, from: nat, id: MessageId, version: nat)
    requires WasQueued(c, trace, from, id, version) && trace <= more
    ensures WasQueued(c, more, from, id, version)
  {
    hide Reached;
    var n :| from <= n <= |trace| && (id, version) in Reached(c, trace[..n]).jobs;
    assert more[..n] == trace[..n];
  }

  /** How a settlement leaves the event, column by column, if its worker still held the lease: DONE; given up
      for good with one more attempt on record; or, after a failure, waiting for its retry time, unless that
      was the last attempt of the budget. */
  ghost predicate LeftAs(row: EventState, step: Step, attempt: nat, maxAttempts: int) {
    var l, e := row.row.lease, row.row.payload;
    && l.lockedBy.None? && l.lockedUntil.None?
    && match step
       case Finish(_, _, now) => e.status.Done? && e.completedAt == Some(now) && e.attemptCount + 1 == attempt
       case GiveUp(_, _, _, reason) =>
         e.status.DeadLetter? && e.lastError == Some(reason) && e.attemptCount == attempt
       case Retry(_, _, now, reason, delay) =>
         && e.lastError == Some(reason) && e.attemptCount == attempt
         && if attempt >= maxAttempts then e.status.DeadLetter?
            else e.status.Pending? && e.nextAttemptAt == now + delay
       case _ => false
  }

  lemma KeptRowMoves(row: EventState, step: Step, tenure: Tenure, maxAttempts: int)
    requires step.Finish? || step.GiveUp? || step.Retry?
    requires Kept(row, step.claim.1, tenure) && tenure.until.Some? && step.worker == tenure.worker
    ensures Effective(row, MoveOf(step), maxAttempts)
    ensures LeftAs(OutboxLifecycle.Step(row, MoveOf(step), maxAttempts), step, tenure.attempts + 1, maxAttempts)
  {
  }

  class OutboxWorker {
    const platform: Platform
    const baseBackoff: real
    const maxBackoff: real
    /** The session has an open transaction. */
    var inTransaction: bool
    var enqueueTransactionViolations: nat

    constructor (platform: Platform, baseBackoff: real, maxBackoff: real)
      ensures this.platform == platform && this.baseBackoff == baseBackoff && this.maxBackoff == maxBackoff
      ensures !inTransaction && enqueueTransactionViolations == 0
    {
      this.platform, this.baseBackoff, this.maxBackoff := platform, baseBackoff, maxBackoff;
      inTransaction, enqueueTransactionViolations := false, 0;
    }

    /** What the report of a settled claim says: by which step it was settled, whether that made it DONE, and
        how it left the event if the lease was still held. */
    ghost predicate Ended(r: Report, k: (nat, nat), row: Option<Row>, tenure: Tenure)
      reads this, platform
    {
      && r.version == Some(k.1) && r.row == row && k.0 < |platform.rows|
      && r.settled.Some? && MovesRow(r.settled.value) && !r.settled.value.ClaimEvent? && r.settled.value.claim == k
      && platform.trace != [] && platform.trace[|platform.trace| - 1] == r.settled.value
      && (r.done ==>
            && r.settled.value.Finish? && row.Some? && platform.rows[k.0].row.payload.status.Done?
            && platform.log != [] && platform.log[|platform.log| - 1] == DidFinish(k, row.value))
      && (!r.done ==> !HasFinished(platform.log, k))
      && (tenure.until.Some? ==>
            && (r.settled.value.Finish? ==> r.done)
            && LeftAs(platform.rows[k.0], r.settled.value, tenure.attempts + 1, platform.config.maxAttempts))
    }

    /** Settle the claim and commit. */
    method Settled(step: Step, row: Option<Row>, ghost p: Phase, ghost tenure: Tenure) returns (r: Report)
      requires platform.AsRun() && MovesRow(step) && !step.ClaimEvent? && platform.Holds(step.claim, p, tenure)
      requires Enabled(platform.config, platform.Now(), step) && step.worker == tenure.worker
      requires step.Finish? ==> row.Some? && (p == Indexed(row.value) || p == Enqueued(row.value))
      modifies this`inTransaction, platform, platform.search
      ensures platform.AsRun() && old(platform.trace) < platform.trace && !inTransaction
      ensures old(platform.db.events) <= platform.db.events
      ensures r.settled == Some(step) && Ended(r, step.claim, row, tenure)
    {
      hide Reached, Enabled, AllInOrder, MentionsGrants, DoneIsLogged, RowsConsistent, Effective, Apply, Kept, LeftAs;
      ReachedLogInv(platform.config, platform.trace);
      assert PhaseLogged(platform.log, step.claim, p);
      ghost var before := platform.rows[step.claim.0];
      if tenure.until.Some? {
        KeptRowMoves(before, step, tenure, platform.config.maxAttempts);
      }
      inTransaction := true;
      var ok := platform.SettleClaim(step, p, tenure);
      inTransaction := false;
      r := Report(step.Finish? && ok, Some(step.claim.1), row, Some(step));
      if r.done {
        CompletionIsDone(before, MoveOf(step), platform.config.maxAttempts);
      }
    }

    method DeadLetter(k: (nat, nat), worker: Worker, world: World, turn: nat, reason: string, row: Option<Row>,
        ghost p: Phase, ghost tenure: Tenure)
      returns (r: Report)
      requires platform.AsRun() && platform.Holds(k, p, tenure) && !p.EnqueueFailed?
      requires InTime(world, k.0, tenure) && worker == tenure.worker
      modifies this`inTransaction, platform, platform.search
      ensures platform.AsRun() && old(platform.trace) < platform.trace && !inTransaction
      ensures old(platform.db.events) <= platform.db.events
      ensures Ended(r, k, row, tenure) && r.settled.value.GiveUp?
    {
      hide Reached, HasFinished, LeftAs, Kept;
      platform.Others(world.others(turn), k, p, tenure);
      r := Settled(GiveUp(k, worker, world.clock(turn), reason), row, p, tenure);
    }

    method FailRecoverable(k: (nat, nat), worker: Worker, attempt: nat, world: World, turn: nat, reason: string,
        row: Option<Row>, ghost p: Phase, ghost tenure: Tenure)
      returns (r: Report)
      requires platform.AsRun() && platform.Holds(k, p, tenure)
      requires InTime(world, k.0, tenure) && worker == tenure.worker
      modifies this`inTransaction, platform, platform.search
      ensures platform.AsRun() && old(platform.trace) < platform.trace && !inTransaction
      ensures old(platform.db.events) <= platform.db.events
      ensures Ended(r, k, row, tenure) && r.settled.value.Retry?
      ensures r.settled.value.delay == DelayFor(world, attempt, baseBackoff, maxBackoff)
    {
      hide Reached, HasFinished, DelayFor, LeftAs, Kept;
      platform.Others(world.others(turn), k, p, tenure);
      var delay := DelayFor(world, attempt, baseBackoff, maxBackoff);
      r := Settled(Retry(k, worker, world.clock(turn), reason, delay), row, p, tenure);
    }

    method MarkDone(k: (nat, nat), worker: Worker, world: World, turn: nat, row: Row, ghost p: Phase,
        ghost tenure: Tenure)
      returns (r: Report)
      requires platform.AsRun() && platform.Holds(k, p, tenure)
      requires InTime(world, k.0, tenure) && worker == tenure.worker
      requires p == (if Exempt(platform.config, row) then Indexed(row) else Enqueued(row))
      modifies this`inTransaction, platform, platform.search
      ensures platform.AsRun() && old(platform.trace) < platform.trace && !inTransaction
      ensures old(platform.db.events) <= platform.db.events
      ensures Ended(r, k, Some(row), tenure) && r.settled.value.Finish?
    {
      hide Reached, HasFinished, LeftAs, Kept;
      platform.Others(world.others(turn), k, p, tenure);
      r := Settled(Finish(k, worker, world.clock(turn)), Some(row), p, tenure);
    }

    /** After the document was built: provision, commit, index, enqueue, finish. */
    method Project(k: (nat, nat), worker: Worker, attempt: nat, row: Row, document: Document, world: World,
        ghost tenure: Tenure)
      returns (r: Report)
      requires platform.AsRun() && platform.Holds(k, Loaded(row, document), tenure)
      requires InTime(world, k.0, tenure) && worker == tenure.worker
      modifies this, platform, platform.search
      ensures platform.AsRun() && old(platform.trace) < platform.trace && !inTransaction
      ensures old(platform.db.events) <= platform.db.events
      ensures enqueueTransactionViolations == old(enqueueTransactionViolations)
      ensures Ended(r, k, Some(row), tenure)
      ensures r.settled.value.Finish? <==>
                && world.provisioning.Provisioned? && world.reply.Accepted?
                && (!platform.config.queueing || row.isDeleted || world.enqueueWorks)
      ensures r.settled.value.GiveUp? <==>
                world.provisioning.ProvisioningFatal? || (world.provisioning.Provisioned? && world.reply.Refused?)
      ensures r.settled.value.Retry? ==> r.settled.value.delay == DelayFor(world, attempt, baseBackoff, maxBackoff)
      ensures r.settled.value.Finish? && platform.config.queueing && !row.isDeleted ==>
                WasQueued(platform.config, platform.trace, |old(platform.trace)|,
                          old(platform.db.events)[k.0].message, row.version)
    {
      hide Platform.AsRun, Platform.Holds, Ended, InTime, DelayFor, WasQueued, Unhurried;
      ghost var p := Loaded(row, document);
      HeldClaimsHaveEvents(platform, k, p, tenure);
      if world.provisioning.ProvisioningRetryable? {
        r := FailRecoverable(k, worker, attempt, world, 4, "Index provisioning retryable", Some(row), p, tenure);
        EndedNames(r, k, Some(row), tenure);
        return;
      }
      if world.provisioning.ProvisioningFatal? {
        r := DeadLetter(k, worker, world, 4, "Index provisioning", Some(row), p, tenure);
        EndedNames(r, k, Some(row), tenure);
        return;
      }
      inTransaction := false;
      InTimeAt(world, k.0, tenure, 4);
      InTimeAt(world, k.0, tenure, 5);
      platform.Others(world.others(4), k, p, tenure);
      if world.reply.Refused? {
        r := DeadLetter(k, worker, world, 5, "refused", Some(row), p, tenure);
        EndedNames(r, k, Some(row), tenure);
        return;
      }
      if !world.reply.Accepted? {
        platform.SendWithoutAnswer(k, row, document, tenure);
        r := FailRecoverable(k, worker, attempt, world, 5, "not stored", Some(row), p, tenure);
        EndedNames(r, k, Some(row), tenure);
        return;
      }
      platform.PutDocument(k, row, document, tenure);
      p := Indexed(row);
      platform.Others(world.others(5), k, p, tenure);
      ghost var queued := platform.trace;
      if !Exempt(platform.config, row) {
        var enqueued := EnqueueEmbedding(k, row, world, tenure);
        queued := platform.trace;
        if !enqueued {
          p := EnqueueFailed;
          r := FailRecoverable(k, worker, attempt, world, 6, "Embedding enqueue failed", Some(row), p, tenure);
          EndedNames(r, k, Some(row), tenure);
          return;
        }
        p := Enqueued(row);
        JobIsQueued(platform, |old(platform.trace)|, k, row);
      }
      r := MarkDone(k, worker, world, 6, row, p, tenure);
      EndedNames(r, k, Some(row), tenure);
      if !Exempt(platform.config, row) {
        QueuedStays(platform.config, queued, platform.trace, |old(platform.trace)|,
                    old(platform.db.events)[k.0].message, row.version);
      }
    }

    lemma EndIsIndexed(r: Report, k: (nat, nat), row: Option<Row>, tenure: Tenure)
      requires platform.AsRun() && Ended(r, k, row, tenure) && k.0 < |platform.db.events|
      ensures r.done && platform.config.bump == 0 ==>
                var announced := platform.db.events[k.0];
                && announced.message in platform.search.entries
                && announced.version <= platform.search.entries[announced.message].source.version
    {
      hide Reached;
      if platform.config.bump == 0 {
        IndexConverges(platform.config, platform.trace, k.0);
      }
    }

    lemma EndedInTime(r: Report, k: (nat, nat), row: Option<Row>, was: EventState, worker: Worker, duration: int,
        world: World)
      requires Ended(r, k, row, TenureOf(was, worker, duration, world, k.0))
      requires InTime(world, k.0, TenureFor(was, worker, duration, world)) && r.settled.Some? && r.settled.value.Finish?
      ensures r.done && k.0 < |platform.rows| && platform.rows[k.0].row.payload.status.Done?
    {
    }

    lemma EndedNames(r: Report, k: (nat, nat), row: Option<Row>, tenure: Tenure)
      requires Ended(r, k, row, tenure)
      ensures r.version == Some(k.1) && r.row == row && k.0 < |platform.rows|
      ensures r.settled.Some? && MovesRow(r.settled.value) && !r.settled.value.ClaimEvent?
      ensures r.done ==> r.settled.value.Finish?
    {
    }

    /** Refuses to wait for the queue while a transaction is open. */
    method EnqueueEmbedding(k: (nat, nat), row: Row, world: World, ghost tenure: Tenure) returns (ok: bool)
      requires platform.AsRun() && platform.Holds(k, Indexed(row), tenure) && !Exempt(platform.config, row)
      modifies this, platform, platform.search
      ensures platform.AsRun() && old(platform.trace) <= platform.trace && !inTransaction
      ensures old(platform.db.events) <= platform.db.events
      ensures enqueueTransactionViolations == old(enqueueTransactionViolations) + (if old(inTransaction) then 1 else 0)
      ensures !old(inTransaction) ==> ok == world.enqueueWorks
      ensures ok ==>
                && platform.Holds(k, Enqueued(row), tenure) && k.0 < |platform.db.events|
                && (platform.db.events[k.0].message, row.version) in platform.jobs
      ensures !old(inTransaction) && !ok ==> platform.Holds(k, EnqueueFailed, tenure)
    {
      hide Reached, Kept;
      if inTransaction {
        enqueueTransactionViolations := enqueueTransactionViolations + 1;
        inTransaction := false;
        return false;
      }
      platform.EnqueueJob(k, row, world.enqueueWorks, world.enqueueLands, tenure);
      ok := world.enqueueWorks;
    }

    /** From the claim to the document, by three reads. The message of an event is always found. */
    method Read(k: (nat, nat), worker: Worker, attempt: nat, world: World, ghost tenure: Tenure) returns (r: Report)
      requires platform.AsRun() && platform.Holds(k, Claimed, tenure)
      requires InTime(world, k.0, tenure) && worker == tenure.worker
      modifies this, platform, platform.search
      ensures platform.AsRun() && old(platform.trace) < platform.trace && !inTransaction
      ensures old(platform.db.events) <= platform.db.events
      ensures enqueueTransactionViolations == old(enqueueTransactionViolations)
      ensures Ended(r, k, r.row, tenure) && (r.row.Some? <==> world.supported)
      ensures r.row.Some? ==>
                var event := old(platform.db.events)[k.0];
                && WasRead(platform.config, platform.trace, |old(platform.trace)|, k, event.message, r.row.value)
                && event.version <= r.row.value.version
      ensures r.settled.value.Finish? <==>
                && world.supported && world.sameTenant && world.provisioning.Provisioned? && world.reply.Accepted?
                && (!platform.config.queueing || r.row.value.isDeleted || world.enqueueWorks)
      ensures r.settled.value.GiveUp? <==>
                || !world.supported || !world.sameTenant || world.provisioning.ProvisioningFatal?
                || (world.provisioning.Provisioned? && world.reply.Refused?)
      ensures r.settled.value.Retry? ==> r.settled.value.delay == DelayFor(world, attempt, baseBackoff, maxBackoff)
      ensures r.settled.value.Finish? && platform.config.queueing && !r.row.value.isDeleted ==>
                WasQueued(platform.config, platform.trace, |old(platform.trace)|,
                          old(platform.db.events)[k.0].message, r.row.value.version)
    {
      hide Platform.AsRun, Platform.Holds, Ended, BuildDocument, Folders, BagsOf, InTime, DelayFor, WasRead, WasQueued;
      if !world.supported {
        r := DeadLetter(k, worker, world, 1, "Unrecognized or unsupported event_type", None, Claimed, tenure);
        EndedNames(r, k, None, tenure);
        return;
      }
      HeldClaimsHaveEvents(platform, k, Claimed, tenure);
      InTimeAt(world, k.0, tenure, 1);
      InTimeAt(world, k.0, tenure, 2);
      InTimeAt(world, k.0, tenure, 3);
      platform.Others(world.others(1), k, Claimed, tenure);
      var row := LoadStored(k, |old(platform.trace)|, tenure);
      ghost var read := platform.trace;
      if !world.sameTenant {
        r := DeadLetter(k, worker, world, 2, "Tenant isolation mismatch", Some(row), ReadRow(row), tenure);
      } else {
        platform.Others(world.others(2), k, ReadRow(row), tenure);
        var bags := platform.LoadParticipantsOf(k, row, tenure);
        platform.Others(world.others(3), k, ReadParticipants(row, bags), tenure);
        var document := platform.LoadDocument(k, row, bags, tenure);
        ghost var built := platform.trace;
        r := Project(k, worker, attempt, row, document, world, tenure);
        QueuedSince(platform.config, platform.trace, |old(platform.trace)|, |built|,
                    old(platform.db.events)[k.0].message, row.version);
      }
      EndedNames(r, k, Some(row), tenure);
      ReadStays(platform.config, read, platform.trace, |old(platform.trace)|, k,
                old(platform.db.events)[k.0].message, row);
    }

    /** The row of the event's message, which the tables never lose. */
    method LoadStored(k: (nat, nat), ghost from: nat, ghost tenure: Tenure) returns (row: Row)
      requires platform.AsRun() && platform.Holds(k, Claimed, tenure) && from <= |platform.trace|
      modifies platform, platform.search
      ensures platform.AsRun() && platform.Holds(k, ReadRow(row), tenure) && old(platform.trace) < platform.trace
      ensures old(platform.db.events) <= platform.db.events
      ensures var event := old(platform.db.events)[k.0];
              && WasRead(platform.config, platform.trace, from, k, event.message, row) && event.version <= row.version
    {
      hide Reached, Kept;
      ghost var before := platform.trace;
      TablesStayValid(platform.config, before);
      EventsArePast(platform.db, k.0);
      var loaded := platform.LoadMessage(k, tenure);
      row := loaded.value;
      assert platform.trace[..|before|] == before;
      assert ReadAt(platform.config, platform.trace, |before|, k, old(platform.db.events)[k.0].message, row);
    }

    /** Claim one event, project it and settle it: DONE exactly when nothing went wrong and the lease held,
        dead-lettered at once exactly for what a retry would not cure, retried otherwise. The row it went by
        was read from the tables under the claim. As long as nobody's clock passes the end of the lease,
        the event ends as the replies say: a supported event of the right tenant that index and queue accept
        is DONE, its message indexed at its version or a later one, and the job of what was read queued. */
    method ProcessOutboxEvent(event: nat, worker: Worker, duration: int, world: World) returns (r: Report)
      requires platform.AsRun()
      modifies this, platform, platform.search
      ensures platform.AsRun() && old(platform.trace) <= platform.trace
      ensures enqueueTransactionViolations == old(enqueueTransactionViolations)
      ensures r.version.Some? <==>
                && event < |old(platform.rows)|
                && var e, l := old(platform.rows)[event].row.payload, old(platform.rows)[event].row.lease;
                   && (e.status.Pending? || e.status.InFlight?) && e.nextAttemptAt <= world.clock(0)
                   && (l.lockedBy.None? || (l.lockedUntil.Some? && l.lockedUntil.value < world.clock(0)))
      ensures r.version.None? ==> !r.done && r.settled.None? && r.row.None?
      ensures r.version.Some? ==>
                var tenure := TenureOf(old(platform.rows)[event], worker, duration, world, event);
                Ended(r, (event, r.version.value), r.row, tenure)
      ensures r.version.Some? ==> (r.row.Some? <==> world.supported)
      ensures r.row.Some? ==>
                var k, read := (event, r.version.value), r.row.value;
                && event < |old(platform.db.events)|
                && old(platform.db.events)[event].version <= read.version
                && WasRead(platform.config, platform.trace, |old(platform.trace)|, k,
                           old(platform.db.events)[event].message, read)
      ensures r.version.Some? ==>
                (r.settled.value.Finish? <==>
                   && world.supported && world.sameTenant && world.provisioning.Provisioned? && world.reply.Accepted?
                   && (!platform.config.queueing || r.row.value.isDeleted || world.enqueueWorks))
      ensures r.version.Some? ==>
                (r.settled.value.GiveUp? <==>
                   || !world.supported || !world.sameTenant || world.provisioning.ProvisioningFatal?
                   || (world.provisioning.Provisioned? && world.reply.Refused?))
      ensures r.version.Some? && r.settled.value.Retry? ==>
                r.settled.value.delay
                == if world.provisioning.Provisioned? && world.reply.Unavailable? && world.reply.retryAfter.Some?
                   then world.reply.retryAfter.value
                   else var attempt := old(platform.rows)[event].row.payload.attemptCount + 1;
                        (BackoffDelay(attempt, baseBackoff, maxBackoff) * 1000000.0).Floor
      ensures r.done && platform.config.bump == 0 ==>
                && event < |old(platform.db.events)|
                && var announced := old(platform.db.events)[event];
                   && announced.message in platform.search.entries
                   && announced.version <= platform.search.entries[announced.message].source.version
      ensures r.done && platform.config.queueing && !r.row.value.isDeleted ==>
                && event < |old(platform.db.events)|
                && WasQueued(platform.config, platform.trace, |old(platform.trace)|,
                             old(platform.db.events)[event].message, r.row.value.version)
      ensures r.version.Some? && InTime(world, event, TenureFor(old(platform.rows)[event], worker, duration, world))
              && world.supported && world.sameTenant && world.provisioning.Provisioned? && world.reply.Accepted?
              && world.enqueueWorks ==>
                r.done && platform.rows[event].row.payload.status.Done?
    {
      hide Platform.AsRun, Platform.Holds, Ended, Effective, InTime, WasRead, WasQueued, TenureOf;
      if event >= |platform.rows| {
        return Report(false, None, None, None);
      }
      RowsMatch(platform);
      ghost var tenure := TenureOf(platform.rows[event], worker, duration, world, event);
      var attempt := platform.rows[event].row.payload.attemptCount + 1;
      inTransaction := true;
      ghost var before := platform.rows[event];
      ClaimIsGrantedIff(before, worker, world.clock(0), duration, platform.config.maxAttempts);
      var granted := platform.Acquire(event, worker, world.clock(0), duration);
      if granted.None? {
        return Report(false, None, None, None);
      }
      var k := (event, granted.value);
      ghost var claimed := platform.trace;
      TenureIsSound(platform, k, before, worker, duration, world);
      r := Read(k, worker, attempt, world, tenure);
      EndedNames(r, k, r.row, tenure);
      ghost var id := old(platform.db.events)[event].message;
      if r.row.Some? {
        ReadSince(platform.config, platform.trace, |old(platform.trace)|, |claimed|, k, id, r.row.value);
        QueuedSince(platform.config, platform.trace, |old(platform.trace)|, |claimed|, id, r.row.value.version);
      }
      RowsMatch(platform);
      EndIsIndexed(r, k, r.row, tenure);
      if InTime(world, event, TenureFor(before, worker, duration, world)) && r.settled.value.Finish? {
        EndedInTime(r, k, r.row, before, worker, duration, world);
      }
    }
  }

  lemma CompletionIsDone(s: EventState, m: Move, maxAttempts: int)
    requires Effective(s, m, maxAttempts) && m.Complete?
    ensures OutboxLifecycle.Step(s, m, maxAttempts).row.payload.status.Done?
  {
  }

  lemma OneMore(c: Config, trace: seq<Step>, step: Step)
    ensures Reached(c, trace + [step]) == Do(c, Reached(c, trace), step)
  {
    assert (trace + [step])[..|trace|] == trace;
  }

  function IndexAfter(c: Config, s: State, step: Step): map<MessageId, Entry>
    requires Enabled(c, s, step)
  {
    match step
    case IndexDocument(k) => IndexWrite(s.index, s.claims[k].document, s.db.events[k.0].version)
    case Arrive(document, version) => IndexWrite(s.index, document, version)
    case RunJob(id, version, _) => VectorWrite(s.index, id, Vector(version, s.jobs[(id, version)].input, Live), c.bump)
    case BackfillWrite(r) => VectorWrite(s.index, r.message, Vector(r.version, r.input, Backfill), c.bump)
    case _ => s.index
  }

  /** A step moves the index exactly by the call it makes. */
  lemma WhatReachesTheIndex(c: Config, s: State, step: Step)
    requires Enabled(c, s, step)
    ensures Next(c, s, step).index == IndexAfter(c, s, step)
  {
    hide ApplyAll, IndexWrite, VectorWrite, BuildDocument, Folders, LiveInput, BackfillInput, WithJob, Effective,
         OutboxLifecycle.Step, BagsOf, Exempt, AcceptsDocument, AcceptsVector;
  }
}
