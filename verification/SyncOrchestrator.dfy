/** The folder sync itself: lease, paging loop, error arms and page transactions, against any
    provider, any clock and any interference by other runs. */
module SyncOrchestrator {
  import opened Leases
  import opened MailRepositories
  import opened MailData
  import opened MessageProcessing
  import opened MailStore
  import opened StoredForm
  import opened SyncSystem
  import opened SyncGenerations
  import opened SyncRun

  // --- provider errors and their handlers -----------------------------------------------

  datatype FaultKind = AuthExpired | Permission | NotFound | CursorExpired | RateLimited | OtherProvider
      | NotFromProvider

  datatype Fault = Fault(kind: FaultKind, statusCode: Option<int>, retryAfter: Option<int>)

  datatype Reply = Delivered(page: Page) | Failed(fault: Fault)

  /** The except arms around the fetch. */
  datatype Arm = OnAuthExpired | OnPermissionOrNotFound | OnRateLimited | OnProviderError | OnCursorExpired

  /** Every provider error is a ProviderError. */
  predicate Catches(arm: Arm, kind: FaultKind) {
    match arm
    case OnAuthExpired => kind.AuthExpired?
    case OnPermissionOrNotFound => kind.Permission? || kind.NotFound?
    case OnRateLimited => kind.RateLimited?
    case OnProviderError => !kind.NotFromProvider?
    case OnCursorExpired => kind.CursorExpired?
  }

  /** The first arm that catches. */
  function Dispatch(arms: seq<Arm>, kind: FaultKind): (arm: Option<Arm>)
    ensures arm.Some? ==> arm.value in arms && Catches(arm.value, kind)
    ensures arm.None? ==> forall a :: a in arms ==> !Catches(a, kind)
  {
    if arms == [] then None
    else if Catches(arms[0], kind) then Some(arms[0])
    else Dispatch(arms[1..], kind)
  }

  const ARMS_AS_WRITTEN := [OnAuthExpired, OnPermissionOrNotFound, OnRateLimited, OnProviderError, OnCursorExpired]
  const ARMS_AS_DOCUMENTED := [OnAuthExpired, OnPermissionOrNotFound, OnRateLimited, OnCursorExpired, OnProviderError]

  /** An expired cursor restarts the sync exactly when its arm comes before the one for its base
      class. */
  lemma {:induction false} RestartArmIsReachedIff(arms: seq<Arm>)
    ensures Dispatch(arms, CursorExpired) == Some(OnCursorExpired)
            <==> exists i :: 0 <= i < |arms| && arms[i] == OnCursorExpired && OnProviderError !in arms[..i]
  {
    if arms != [] {
      var rest := arms[1..];
      RestartArmIsReachedIff(rest);
      forall i | 0 <= i < |rest| ensures arms[..i + 1] == [arms[0]] + rest[..i] {
      }
      if i :| 0 <= i < |rest| && rest[i] == OnCursorExpired && OnProviderError !in rest[..i]
              && arms[0] != OnProviderError {
        assert arms[i + 1] == OnCursorExpired && OnProviderError !in arms[..i + 1];
      }
      if i :| 0 <= i < |arms| && arms[i] == OnCursorExpired && OnProviderError !in arms[..i]
              && arms[0] != OnCursorExpired {
        assert rest[i - 1] == OnCursorExpired && arms[..i] == [arms[0]] + rest[..i - 1];
      }
      if arms[0] == OnCursorExpired {
        assert OnProviderError !in arms[..0];
      }
      if arms[0] == OnProviderError {
        forall i | 0 < i < |arms| ensures OnProviderError in arms[..i] {
          assert arms[..i][0] == OnProviderError;
        }
      }
    }
  }

  /** As the arms are written no error whatsoever reaches the restart; moving that one arm up lets an
      expired cursor reach it and changes nothing else. */
  lemma RestartArmIsDeadAsWritten(kind: FaultKind)
    ensures Dispatch(ARMS_AS_WRITTEN, kind) != Some(OnCursorExpired)
    ensures Dispatch(ARMS_AS_DOCUMENTED, kind)
            == if kind.CursorExpired? then Some(OnCursorExpired) else Dispatch(ARMS_AS_WRITTEN, kind)
  {
    assert ARMS_AS_WRITTEN[1..] == [OnPermissionOrNotFound, OnRateLimited, OnProviderError, OnCursorExpired];
    assert ARMS_AS_WRITTEN[1..][1..] == [OnRateLimited, OnProviderError, OnCursorExpired];
    assert ARMS_AS_WRITTEN[1..][1..][1..] == [OnProviderError, OnCursorExpired];
    assert ARMS_AS_WRITTEN[1..][1..][1..][1..] == [OnCursorExpired];
    assert ARMS_AS_DOCUMENTED[1..] == [OnPermissionOrNotFound, OnRateLimited, OnCursorExpired, OnProviderError];
    assert ARMS_AS_DOCUMENTED[1..][1..] == [OnRateLimited, OnCursorExpired, OnProviderError];
    assert ARMS_AS_DOCUMENTED[1..][1..][1..] == [OnCursorExpired, OnProviderError];
    assert ARMS_AS_DOCUMENTED[1..][1..][1..][1..] == [OnProviderError];
  }

  /** Which arm catches what, in the order as written. */
  lemma EachErrorHasItsArm(kind: FaultKind)
    ensures Dispatch(ARMS_AS_WRITTEN, kind)
            == match kind
               case AuthExpired => Some(OnAuthExpired)
               case Permission => Some(OnPermissionOrNotFound)
               case NotFound => Some(OnPermissionOrNotFound)
               case RateLimited => Some(OnRateLimited)
               case NotFromProvider => None
               case _ => Some(OnProviderError)
  {
    assert ARMS_AS_WRITTEN[1..] == [OnPermissionOrNotFound, OnRateLimited, OnProviderError, OnCursorExpired];
    assert ARMS_AS_WRITTEN[1..][1..] == [OnRateLimited, OnProviderError, OnCursorExpired];
    assert ARMS_AS_WRITTEN[1..][1..][1..] == [OnProviderError, OnCursorExpired];
    assert ARMS_AS_WRITTEN[1..][1..][1..][1..] == [OnCursorExpired];
  }

  // --- the database a run talks to ------------------------------------------------------

  class Database {
    /** The folders that exist. */
    const folders: set<FolderId>
    var rows: map<FolderId, Register<SyncColumns>>
    const store: Store
    ghost const initial: Sys
    var trace: seq<Txn>

    constructor (folders: set<FolderId>)
      ensures AsFound() && trace == [] && initial == Sys(map[], EMPTY_DB)
      ensures fresh(store) && this.folders == folders
    {
      this.folders := folders;
      rows := map[];
      store := new Store();
      initial, trace := Sys(map[], EMPTY_DB), [];
    }

    function State(): Sys
      reads this, store
    {
      Sys(rows, store.Tables())
    }

    /** The database is what the transactions so far made of what it was at first. */
    ghost predicate AsFound()
      reads this, store
    {
      State() == Run(initial, trace) && WellKept(store.Tables()) && Valid(initial.db)
    }

    method Row(folder: FolderId) returns (row: Register<SyncColumns>)
      ensures row == RowOf(State(), folder)
    {
      row := if folder in rows then rows[folder]
             else Register(Lease(None, None, 1), SyncColumns(PendingInitialSync, None, 1, 0));
    }

    /** A transaction of one statement on a sync state row. */
    method Update(t: Txn) returns (ok: bool)
      requires AsFound() && !t.CommitPage?
      modifies this
      ensures AsFound() && trace == old(trace) + [t]
      ensures ok <==> Effective(old(State()), t)
    {
      RunAppend(initial, trace, t);
      var row := Row(t.folder);
      ok := Accepts(row, Statement(t));
      if ok {
        rows := rows[t.folder := Apply(row, Statement(t))];
        NoChanges(store.Tables());
      }
      trace := trace + [t];
    }

    /** The page transaction: lease check, mutations, clean-up, token. A failed check rolls back. */
    method CommitOnePage(folder: FolderId, worker: Worker, version: nat, now: Time, duration: int,
                      generation: nat, page: Page, cleanup: bool)
      returns (done: Txn, ok: bool, mutated: nat, removed: nat)
      requires AsFound()
      modifies this, store
      ensures AsFound() && trace == old(trace) + [done]
      ensures done.CommitPage?
                  && done == Txn.CommitPage(folder, worker, version, now, duration, generation, page, cleanup,
                      done.order)
      ensures ok <==> Effective(old(State()), done)
      ensures ok <==> Holds(RowOf(old(State()), folder), worker, version)
      ensures ok ==> RowOf(State(), folder).payload.state == StateAfter(page)
      ensures ok ==>
                mutated == ChangesOf(old(store.Tables()), done) && removed == RemovalsOf(old(store.Tables()), done)
    {
      hide ApplyAll, ApplyChange, WellKept, Valid, Enumerates, Stale, PlacedByPage;
      var before := store.Tables();
      var row := Row(folder);
      var order := [];
      mutated, removed := 0, 0;
      ok := Accepts(row, RenewSyncOp(worker, version, now, duration));
      if ok {
        mutated, removed := store.ProcessPage(folder, generation, page);
        ghost var paged := store.Tables();
        assert mutated == |paged.events| - |before.events|;
        if cleanup {
          order := store.ReconcileStaleMemberships(folder, generation);
        } else {
          NoChanges(store.Tables());
        }
        var renewed := Apply(row, RenewSyncOp(worker, version, now, duration));
        rows := rows[folder := Apply(renewed,
            UpdateSyncOp(worker, version, now, StateAfter(page), page.next, None, false, false))];
      }
      done := Txn.CommitPage(folder, worker, version, now, duration, generation, page, cleanup, order);
      PageStatementIsRenewThenUpdate(row, done);
      ApplyAllAppends(before, PageChanges(folder, generation, page), if cleanup then Reconciliations(folder, order)
          else []);
      RunAppend(initial, trace, done);
      trace := trace + [done];
    }

    /** Any transactions of other runs; a run never holds another's lease version. */
    method Others(wanted: seq<Txn>, folder: FolderId, version: Option<nat>)
      requires AsFound()
      modifies this, store
      ensures AsFound() && old(trace) <= trace
      ensures version.Some? ==>
                forall i :: |old(trace)| <= i < |trace| ==> Foreign(trace[i], folder, version.value)
      ensures forall i :: |old(trace)| <= i < |trace| && trace[i].Grab? ==> trace[i] in wanted
      ensures wanted == [] ==> State() == old(State())
    {
      hide ApplyAll, ApplyChange, WellKept, Valid, Effective, Run;
      for i := 0 to |wanted|
        invariant AsFound() && old(trace) <= trace
        invariant version.Some? ==>
                    forall k :: |old(trace)| <= k < |trace| ==> Foreign(trace[k], folder, version.value)
        invariant forall k :: |old(trace)| <= k < |trace| && trace[k].Grab? ==> trace[k] in wanted
        invariant wanted == [] ==> State() == old(State())
      {
        var t := wanted[i];
        if version.None? || Foreign(t, folder, version.value) {
          if t.CommitPage? {
            var _, _, _, _ := CommitOnePage(t.folder, t.worker, t.version, t.now, t.duration, t.generation, t.page,
                t.cleanup);
          } else {
            var _ := Update(t);
          }
        }
      }
    }

    /** Interference with a run in progress. */
    method Interfere(wanted: seq<Txn>, folder: FolderId, version: nat, ghost v: View, ghost limit: Option<Time>)
      requires AsFound() && Inv(initial, trace, v) && v.folder == folder && v.version == version
      modifies this, store
      ensures AsFound() && Inv(initial, trace, v) && old(trace) <= trace
      ensures old(Kept(RowOf(State(), folder), v.worker, version, limit)) && Unhurried(wanted, folder, limit) ==>
                Kept(RowOf(State(), folder), v.worker, version, limit)
    {
      hide ApplyAll, ApplyChange, WellKept, Valid, Inv, Run, Kept, RowOf;
      Others(wanted, folder, Some(version));
      ForeignRunKeepsInv(initial, old(trace), trace, v);
      if old(Kept(RowOf(State(), folder), v.worker, version, limit)) && Unhurried(wanted, folder, limit) {
        KeptOn(initial, old(trace), trace, folder, v.worker, version, limit);
      }
    }

    /** A lease renewal of the run itself, after interference. */
    method RenewLease(now: Time, duration: int, wanted: seq<Txn>, folder: FolderId, worker: Worker, version: nat,
        ghost v: View, ghost limit: Option<Time>)
      returns (ok: bool)
      requires AsFound() && Inv(initial, trace, v) && v.folder == folder && v.version == version && v.worker == worker
      requires Kept(RowOf(State(), folder), worker, version, limit) && Unhurried(wanted, folder, limit)
      requires limit.Some? ==> limit.value <= now + duration
      modifies this, store
      ensures AsFound() && Inv(initial, trace, v) && old(trace) <= trace
      ensures Tallied(initial, trace, folder, version, v.committed, v.mutated, v.removed)
      ensures KeepsProtocol(initial, trace, v.timely, v.grantedAt, folder, version)
      ensures !ok ==> !Holds(RowOf(State(), folder), worker, version)
      ensures Kept(RowOf(State(), folder), worker, version, limit) && (limit.Some? ==> ok)
    {
      hide ApplyAll, ApplyChange, WellKept, Valid, Inv, Run, Effective, Kept;
      Interfere(wanted, folder, version, v, limit);
      var t := Renew(folder, worker, version, now, duration);
      ForeignStepKeepsInv(initial, trace, t, v);
      RunAppend(initial, trace, t);
      RefusedRenewalIsNoHolder(State(), t);
      OwnStepKeeps(State(), t, limit);
      ok := Update(t);
      InvNamesPages(initial, trace, v);
    }

    /** The 410 arm's update, whose result the run does not look at. */
    method RestartDelta(now: Time, wanted: seq<Txn>, folder: FolderId, worker: Worker, version: nat, generation: nat,
        ghost v: View, ghost limit: Option<Time>)
      returns (ghost w: View)
      requires AsFound() && Inv(initial, trace, v)
      requires Kept(RowOf(State(), folder), worker, version, limit) && Unhurried(wanted, folder, limit)
      requires v.folder == folder && v.worker == worker && v.version == version && generation == v.generation + 1
      modifies this, store
      ensures AsFound() && Inv(initial, trace, w) && old(trace) <= trace
      ensures w == v.(generation := generation, resync := true, restartAt := |trace|)
      ensures trace != [] && trace[|trace| - 1].Restart?
      ensures Kept(RowOf(State(), folder), worker, version, limit)
    {
      hide ApplyAll, ApplyChange, WellKept, Valid, Inv, Run, Effective, Kept;
      Interfere(wanted, folder, version, v, limit);
      var t := Restart(folder, worker, version, now, generation);
      OwnStepKeeps(State(), t, limit);
      RunAppend(initial, trace, t);
      RestartKeepsInv(initial, trace, t, v);
      w := v.(generation := generation, resync := true, restartAt := |trace| + 1);
      var _ := Update(t);
    }

    /** The run's own page, after interference. */
    method CommitOwnPage(now: Time, duration: int, wanted: seq<Txn>, folder: FolderId, worker: Worker, version: nat,
                         generation: nat, page: Page, resync: bool, ghost v: View, ghost limit: Option<Time>)
      returns (ok: bool, mutated: nat, removed: nat, ghost w: View)
      requires AsFound() && Inv(initial, trace, v)
      requires v.folder == folder && v.worker == worker && v.version == version
      requires v.generation == generation && v.resync == resync
      requires Kept(RowOf(State(), folder), worker, version, limit) && Unhurried(wanted, folder, limit)
      requires limit.Some? ==> limit.value <= now + duration
      modifies this, store
      ensures AsFound() && Inv(initial, trace, w) && old(trace) <= trace && |trace| > 0
      ensures w == if ok then v.(committed := v.committed + [page], mutated := v.mutated + mutated,
                                 removed := v.removed + removed) else v
      ensures ok && resync && Final(page) ==> ExactAt(initial, trace, |trace| - 1, folder, version, v.restartAt)
      ensures ok ==> CommittedAt(initial, trace, |trace| - 1, folder, version, page)
      ensures Kept(RowOf(State(), folder), worker, version, limit) && (limit.Some? ==> ok)
    {
      hide ApplyAll, ApplyChange, WellKept, Valid, Inv, Run, ExactAt, Possible;
      Interfere(wanted, folder, version, v, limit);
      ghost var before := trace;
      var t;
      t, ok, mutated, removed :=
        CommitOnePage(folder, worker, version, now, duration, generation, page, resync && Final(page));
      CommitKeepsInv(initial, before, t, v);
      OwnStepKeeps(Run(initial, before), t, limit);
      RunAppend(initial, before, t);
      w := AfterPage(initial, before, t, v);
      if ok && resync && Final(page) {
        FinalPageIsExact(initial, before, t, v);
      }
      assert trace[..|trace|] == trace;
    }

    /** Mark the row or release it, and leave. */
    method End(t: Txn, wanted: seq<Txn>, folder: FolderId, version: nat, ghost v: View)
      requires AsFound() && Inv(initial, trace, v) && v.folder == folder && v.version == version
      requires t.Mark? || t.Release?
      modifies this, store
      ensures AsFound() && old(trace) <= trace
      ensures Tallied(initial, trace, folder, version, v.committed, v.mutated, v.removed)
      ensures KeepsProtocol(initial, trace, v.timely, v.grantedAt, folder, version)
      ensures trace != [] && trace[|trace| - 1] == t && !Holds(RowOf(State(), t.folder), t.worker, t.version)
    {
      hide ApplyAll, ApplyChange, WellKept, Valid, Inv, Run, Effective;
      Interfere(wanted, folder, version, v, None);
      EndKeepsPages(initial, trace, t, v);
      RunAppend(initial, trace, t);
      EndFreesTheLease(State(), t);
      var _ := Update(t);
    }

    method Acquire(now: Time, duration: int, wanted: seq<Txn>, folder: FolderId, worker: Worker, generation: nat)
      returns (granted: Option<nat>, timely: bool, grantedAt: nat, ghost v: View)
      requires AsFound()
      modifies this, store
      ensures AsFound() && old(trace) <= trace
      ensures granted.Some? ==>
                && Inv(initial, trace, v)
                && v == View(folder, worker, granted.value, [], 0, 0, generation, timely, false, 0, grantedAt)
                && RowOf(State(), folder).lease == Lease(Some(worker), Some(now + duration), granted.value)
      ensures wanted == [] ==>
                var l := RowOf(old(State()), folder).lease;
                granted.Some? <==> l.lockedBy.None? || (l.lockedUntil.Some? && l.lockedUntil.value < now)
    {
      hide ApplyAll, ApplyChange, WellKept, Valid, Inv, Run;
      Others(wanted, folder, None);
      var t := Grab(folder, worker, now, duration);
      var row := Row(folder);
      TransactionsMoveRows(State(), t);
      RunAppend(initial, trace, t);
      ghost var before := trace;
      var ok := Update(t);
      granted := if ok then Some(row.lease.version + 1) else None;
      timely, grantedAt := generation == row.payload.generation, |trace| - 1;
      v := View(folder, worker, row.lease.version + 1, [], 0, 0, generation, timely, false, 0, grantedAt);
      if ok {
        GrantStartsInv(initial, before, t, generation);
      }
    }
  }

  /** Nobody else who tries to take the folder has a clock beyond the limit, if there is one. */
  ghost predicate Unhurried(wanted: seq<Txn>, folder: FolderId, limit: Option<Time>) {
    limit.Some? ==> forall t :: t in wanted && t.Grab? && t.folder == folder ==> t.now <= limit.value
  }

  /** The lease is held, up to the limit at least. */
  ghost predicate Kept(row: Register<SyncColumns>, worker: Worker, version: nat, limit: Option<Time>) {
    limit.Some? ==>
      Holds(row, worker, version) && row.lease.lockedUntil.Some? && limit.value <= row.lease.lockedUntil.value
  }

  lemma OthersKeep(s: Sys, t: Txn, folder: FolderId, worker: Worker, version: nat, limit: Option<Time>)
    requires Kept(RowOf(s, folder), worker, version, limit) && Foreign(t, folder, version)
    requires t.Grab? && t.folder == folder && limit.Some? ==> t.now <= limit.value
    ensures Kept(RowOf(Step(s, t), folder), worker, version, limit)
  {
    hide ApplyAll, Delta, Possible, Statement, RowOf, Step, Effective, MovesRow;
    TransactionsMoveRows(s, t);
  }

  /** Interference within the limit leaves the lease where it is. */
  lemma {:induction false} KeptOn(initial: Sys, before: seq<Txn>, after: seq<Txn>, folder: FolderId, worker: Worker,
        version: nat, limit: Option<Time>)
    requires before <= after && Kept(RowOf(Run(initial, before), folder), worker, version, limit)
    requires forall i :: |before| <= i < |after| ==>
               && Foreign(after[i], folder, version)
               && (after[i].Grab? && after[i].folder == folder && limit.Some? ==> after[i].now <= limit.value)
    ensures Kept(RowOf(Run(initial, after), folder), worker, version, limit)
    decreases |after|
  {
    hide Kept, RowOf, Step;
    if |before| == |after| {
      assert before == after;
    } else {
      var n := |after| - 1;
      KeptOn(initial, before, after[..n], folder, worker, version, limit);
      OthersKeep(Run(initial, after[..n]), after[n], folder, worker, version, limit);
    }
  }

  /** A renewal, restart or page of the holder takes effect and keeps the lease. */
  lemma OwnStepKeeps(s: Sys, t: Txn, limit: Option<Time>)
    requires t.Renew? || t.Restart? || t.CommitPage?
    requires Kept(RowOf(s, t.folder), t.worker, t.version, limit)
    requires (t.Renew? || t.CommitPage?) && limit.Some? ==> limit.value <= t.now + t.duration
    ensures Kept(RowOf(Step(s, t), t.folder), t.worker, t.version, limit)
    ensures t.Renew? && limit.Some? ==> Effective(s, t)
  {
    hide ApplyAll, Delta, Statement, RowOf, Step, Effective;
    TransactionsMoveRows(s, t);
  }

  lemma EndFreesTheLease(s: Sys, t: Txn)
    requires t.Mark? || t.Release?
    ensures !Holds(RowOf(Step(s, t), t.folder), t.worker, t.version)
  {
    hide ApplyAll, Delta;
  }

  lemma RefusedRenewalIsNoHolder(s: Sys, t: Txn)
    requires t.Renew?
    ensures !Effective(s, t) ==> !Holds(RowOf(Step(s, t), t.folder), t.worker, t.version)
  {
    hide ApplyAll, Delta;
  }

  /** The transaction at position n committed this page under the given lease, with its state. */
  ghost predicate CommittedAt(initial: Sys, trace: seq<Txn>, n: nat, folder: FolderId, version: nat, page: Page) {
    && n < |trace|
    && trace[n].CommitPage? && trace[n].folder == folder && trace[n].version == version && trace[n].page == page
    && RowOf(Run(initial, trace[..n + 1]), folder).payload.state == StateAfter(page)
  }

  lemma CommittedStays(initial: Sys, trace: seq<Txn>, later: seq<Txn>, n: nat, folder: FolderId, version: nat,
      page: Page)
    requires CommittedAt(initial, trace, n, folder, version, page) && trace <= later
    ensures CommittedAt(initial, later, n, folder, version, page)
  {
    assert later[..n + 1] == trace[..n + 1];
  }

  // --- the run --------------------------------------------------------------------------

  /** What the run cannot foresee: what the k-th delta call answers for a continuation, whether refreshing
      the credential works, what other runs do before its k-th transaction, and what the clock then says. */
  datatype World = World(provider: (nat, Option<string>) -> Reply, refreshWorks: bool, others: nat -> seq<Txn>,
      clock: nat -> Time)

  datatype Problem =
    | FolderNotFound | LeaseUnavailable | TooManyPages | LeaseLost | LoopDetected | Raised(fault: Fault) | LostAtPage

  datatype SyncResult = SyncResult(
    state: SyncStatus, processed: nat, mutated: nat, removals: nat, resync: bool,
    error: Option<Problem>, retryAfter: Option<int>)

  /** An error of a run that knew its folder. */
  predicate EndedInError(r: SyncResult) {
    r.error.Some? && r.error != Some(FolderNotFound)
  }

  /** The result, with what the run did: the lease version, the token it started from, pages fetched,
      delta calls, credential refreshes, the positions of its last restart and of its last transaction
      on a page, and whether the generation it had read was still the row's when it was granted the
      lease, at position grantedAt. */
  datatype Report = Report(result: SyncResult, version: Option<nat>, first: Option<string>, fetched: seq<Page>,
                           fetches: nat, calls: nat, refreshes: nat, restartAt: nat, finalAt: nat,
                           timely: bool, grantedAt: nat)

  const MAX_PAGES := 1000

  predicate Continues(page: Page) {
    page.hasMore && page.next.Some? && page.next.value != ""
  }

  /** The page names the next one. */
  ghost predicate LeadsOn(page: Page) {
    page.hasMore && page.next.Some? && page.next.value != ""
  }

  ghost predicate DistinctContinuations(pages: seq<Page>) {
    forall i, j :: 0 <= i < j < |pages| && LeadsOn(pages[i]) && LeadsOn(pages[j]) ==> pages[i].next != pages[j].next
  }

  /** One of the pages led on to this continuation. */
  ghost predicate Brought(pages: seq<Page>, continuation: string) {
    exists i :: 0 <= i < |pages| && LeadsOn(pages[i]) && pages[i].next == Some(continuation)
  }

  /** The bookkeeping of the loop: every continuation so far is remembered, none came twice, and the
      messages are counted. */
  ghost predicate Booked(pages: seq<Page>, seen: set<string>, processed: nat) {
    && (forall i :: 0 <= i < |pages| && LeadsOn(pages[i]) ==> pages[i].next.value in seen)
    && (forall continuation :: continuation in seen ==> Brought(pages, continuation))
    && DistinctContinuations(pages)
    && processed == TotalMessages(pages)
  }

  ghost predicate NoneFinal(pages: seq<Page>) {
    forall i :: 0 <= i < |pages| ==> !Final(pages[i])
  }

  lemma NothingIsBookedYet()
    ensures NoneFinal([]) && Booked([], {}, 0)
  {
  }

  lemma BookedDistinctly(pages: seq<Page>, seen: set<string>, processed: nat)
    requires Booked(pages, seen, processed)
    ensures DistinctContinuations(pages) && processed == TotalMessages(pages)
  {
  }

  lemma PageIsBooked(pages: seq<Page>, seen: set<string>, processed: nat, page: Page)
    requires Booked(pages, seen, processed) && NoneFinal(pages)
    requires Continues(page) ==> page.next.value !in seen
    ensures Booked(pages + [page], if Continues(page) then seen + {page.next.value} else seen,
                processed + |page.messages|)
    ensures !Final(page) ==> NoneFinal(pages + [page])
    ensures NoneFinal((pages + [page])[..|pages|])
  {
    var more := pages + [page];
    assert more[..|pages|] == pages;
    var after := if Continues(page) then seen + {page.next.value} else seen;
    forall continuation | continuation in after ensures Brought(more, continuation) {
      if continuation in seen {
        var i :| 0 <= i < |pages| && LeadsOn(pages[i]) && pages[i].next == Some(continuation);
        assert more[i] == pages[i];
      } else {
        assert LeadsOn(more[|pages|]);
      }
    }
  }

  function TotalMessages(pages: seq<Page>): nat {
    if pages == [] then 0 else TotalMessages(pages[..|pages| - 1]) + |pages[|pages| - 1].messages|
  }

  /** `value or default` */
  function OrDefault(value: Option<int>, default: int): int {
    if value.Some? && value.value != 0 then value.value else default
  }

  predicate ExpiredCursor(reply: Reply) {
    reply.Failed? && reply.fault.kind.CursorExpired?
  }

  /** The continuation that the k-th delta call asks for: what the page before it brought, nothing
      after a restart, and the same again after any other failure. */
  function Asked(world: World, arms: seq<Arm>, first: Option<string>, k: nat): Option<string> {
    if k == 0 then first
    else
      var before := Asked(world, arms, first, k - 1);
      match world.provider(k - 1, before)
      case Delivered(page) => page.next
      case Failed(fault) => if Dispatch(arms, fault.kind) == Some(OnCursorExpired) then None else before
  }

  /** The pages that the first k delta calls delivered. */
  function PagesDelivered(world: World, arms: seq<Arm>, first: Option<string>, k: nat): seq<Page> {
    if k == 0 then []
    else
      var before := PagesDelivered(world, arms, first, k - 1);
      match world.provider(k - 1, Asked(world, arms, first, k - 1))
      case Delivered(page) => before + [page]
      case Failed(_) => before
  }

  lemma NothingAskedYet(world: World, arms: seq<Arm>, first: Option<string>)
    ensures Asked(world, arms, first, 0) == first && PagesDelivered(world, arms, first, 0) == []
  {
  }

  /** What to do about a fetch. */
  datatype Verdict = Got(page: Page) | StartOver
      | Leave(t: Txn, state: SyncStatus, fault: Fault, raised: bool, retryAfter: Option<int>)

  /** Which row update and which report an error earns. An authorisation problem and a refused or
      missing folder are marked on the row; anything transient just gives the lease back, with the time
      to wait if the provider is rate limiting or unavailable; the rest is raised. */
  predicate LeavesAsItShould(v: Verdict, fault: Fault, current: SyncStatus, folder: FolderId, worker: Worker,
      version: nat, now: Time)
    requires v.Leave?
  {
    var named := fault.retryAfter.Some? && fault.retryAfter.value != 0;
    var released := v.t == Release(folder, worker, version, now) && v.state == current;
    if fault.kind.AuthExpired? then
      v.t == Mark(folder, worker, version, now, AuthRequired) && v.state.AuthRequired? && !v.raised
          && v.retryAfter.None?
    else if fault.kind.Permission? || fault.kind.NotFound? then
      v.t == Mark(folder, worker, version, now, Error) && v.state.Error? && v.fault == fault && !v.raised
          && v.retryAfter.None?
    else if fault.kind.RateLimited? then
      released && v.fault == fault && !v.raised && v.retryAfter == if named then fault.retryAfter else Some(30)
    else if !fault.kind.NotFromProvider? && fault.statusCode.Some? && fault.statusCode.value >= 500 then
      released && v.fault == fault && !v.raised && v.retryAfter == if named then fault.retryAfter else Some(5)
    else
      released && v.fault == fault && v.raised && v.retryAfter.None?
  }

  /** The arms that make no further call. */
  method Handle(arms: seq<Arm>, fault: Fault, current: SyncStatus, folder: FolderId, worker: Worker, version: nat,
      now: Time)
    returns (verdict: Verdict)
    requires Dispatch(arms, fault.kind) != Some(OnAuthExpired)
    ensures verdict.Leave? || verdict.StartOver?
    ensures verdict.StartOver? <==> Dispatch(arms, fault.kind) == Some(OnCursorExpired)
    ensures verdict.Leave? ==>
              Leaves(verdict.t, folder, worker, version)
              && !(verdict.t.Mark? && verdict.t.state.AuthRequired?)
    ensures verdict.Leave? && arms in {ARMS_AS_WRITTEN, ARMS_AS_DOCUMENTED} ==>
              LeavesAsItShould(verdict, fault, current, folder, worker, version, now)
  {
    RestartArmIsDeadAsWritten(fault.kind);
    EachErrorHasItsArm(fault.kind);
    hide Dispatch;
    match Dispatch(arms, fault.kind)
    case Some(OnPermissionOrNotFound) =>
      verdict := Leave(Mark(folder, worker, version, now, Error), Error, fault, false, None);
    case Some(OnRateLimited) =>
      verdict := Leave(Release(folder, worker, version, now), current, fault, false,
          Some(OrDefault(fault.retryAfter, 30)));
    case Some(OnProviderError) =>
      var unavailable := fault.statusCode.Some? && fault.statusCode.value >= 500;
      verdict := Leave(Release(folder, worker, version, now), current, fault, !unavailable,
                       if unavailable then Some(OrDefault(fault.retryAfter, 5)) else None);
    case Some(OnCursorExpired) =>
      verdict := StartOver;
    case None =>
      verdict := Leave(Release(folder, worker, version, now), current, fault, true, None);
  }

  /** A transaction with which a run gives up its own lease. */
  predicate Leaves(t: Txn, folder: FolderId, worker: Worker, version: nat) {
    (t.Mark? || t.Release?) && t.folder == folder && t.worker == worker && t.version == version
  }

  lemma OnlyExpiredAuthIsAuthorised(arms: seq<Arm>, kind: FaultKind)
    ensures Dispatch(arms, kind) == Some(OnAuthExpired) ==> kind.AuthExpired?
    ensures arms in {ARMS_AS_WRITTEN, ARMS_AS_DOCUMENTED} && kind.AuthExpired? ==>
                Dispatch(arms, kind) == Some(OnAuthExpired)
  {
  }

  /** A fetch with its error arms, without their database effects. A refresh happens once per run and
      is followed by one retry; any failure of either asks for authorisation. */
  method Answer(world: World, arms: seq<Arm>, ghost first: Option<string>, call: nat, token: Option<string>,
                authService: bool, refreshed: bool, current: SyncStatus,
                folder: FolderId, worker: Worker, version: nat, now: Time)
    returns (verdict: Verdict, calls: nat, refreshes: nat)
    requires token == Asked(world, arms, first, call)
    ensures 1 <= calls <= 1 + refreshes && refreshes <= (if refreshed then 0 else 1)
    ensures verdict.Leave? ==> Leaves(verdict.t, folder, worker, version)
    ensures verdict.Leave? && arms in {ARMS_AS_WRITTEN, ARMS_AS_DOCUMENTED} ==>
              world.provider(call, token).Failed?
              && LeavesAsItShould(verdict, world.provider(call, token).fault, current, folder, worker, version, now)
    ensures !refreshed && authService && verdict.Leave? && verdict.t.Mark? && verdict.t.state.AuthRequired? ==>
                refreshes == 1
    // An expired authorisation is refreshed once, and a refresh that works is followed by one more call.
    ensures refreshes == 1 <==>
              && world.provider(call, token).Failed?
              && Dispatch(arms, world.provider(call, token).fault.kind) == Some(OnAuthExpired)
              && authService && !refreshed
    ensures calls == 2 <==> refreshes == 1 && world.refreshWorks
    // The last call decides.
    ensures verdict.Got? <==> world.provider(call + calls - 1, token).Delivered?
    ensures verdict.Got? ==> verdict.page == world.provider(call + calls - 1, token).page
    ensures !verdict.Got? ==> world.provider(call, token).Failed?
    ensures verdict.Got? ==>
              && PagesDelivered(world, arms, first, call + calls)
                  == PagesDelivered(world, arms, first, call) + [verdict.page]
              && Asked(world, arms, first, call + calls) == verdict.page.next
    ensures !verdict.Got? ==>
              PagesDelivered(world, arms, first, call + calls)
              == PagesDelivered(world, arms, first, call)
    ensures verdict.StartOver? ==> Asked(world, arms, first, call + calls) == None
    ensures arms == ARMS_AS_WRITTEN ==> !verdict.StartOver?
    ensures ExpiredCursor(world.provider(call, token)) && arms == ARMS_AS_DOCUMENTED ==> verdict.StartOver?
    ensures ExpiredCursor(world.provider(call, token)) && arms == ARMS_AS_WRITTEN ==> verdict.Leave?
  {
    calls, refreshes := 1, 0;
    var reply := world.provider(call, token);
    if reply.Delivered? {
      return Got(reply.page), 1, 0;
    }
    RestartArmIsDeadAsWritten(reply.fault.kind);
    OnlyExpiredAuthIsAuthorised(arms, reply.fault.kind);
    hide Dispatch;
    if Dispatch(arms, reply.fault.kind) != Some(OnAuthExpired) {
      hide LeavesAsItShould, Leaves;
      verdict := Handle(arms, reply.fault, current, folder, worker, version, now);
      return;
    }
    var fault := reply.fault;
    if !refreshed && authService {
      refreshes := 1;
      if world.refreshWorks {
        calls := 2;
        var retried := world.provider(call + 1, token);
        if retried.Delivered? {
          return Got(retried.page), 2, 1;
        }
        fault := retried.fault;
      }
    }
    verdict := Leave(Mark(folder, worker, version, now, AuthRequired), AuthRequired, fault, false, None);
  }

  /** The local variables of a run. */
  datatype Locals = Locals(
    token: Option<string>, generation: nat, current: SyncStatus, processed: nat, mutated: nat, removals: nat,
    resync: bool, pageCount: nat, calls: nat, refreshes: nat, seen: set<string>, fetched: seq<Page>,
    restartAt: nat, finalAt: nat, tick: nat, timely: bool, grantedAt: nat)

  /** What the run knows at the head of its loop, apart from the database. */
  ghost predicate OnTrack(world: World, arms: seq<Arm>, first: Option<string>, l: Locals) {
    && l.pageCount <= MAX_PAGES && l.calls <= l.pageCount + l.refreshes && l.refreshes <= 1
    && l.token == Asked(world, arms, first, l.calls)
    && l.fetched == PagesDelivered(world, arms, first, l.calls)
    && Booked(l.fetched, l.seen, l.processed)
    && (arms == ARMS_AS_WRITTEN ==> !l.resync)
    && (arms == ARMS_AS_WRITTEN && l.calls > 0 ==> !ExpiredCursor(world.provider(0, first)))
    && (l.calls == 0 ==> l.fetched == [])
  }

  ghost predicate Views(v: View, folder: FolderId, worker: Worker, version: nat, l: Locals) {
    && v.folder == folder && v.worker == worker && v.version == version
    && v.generation == l.generation && v.resync == l.resync && v.committed == l.fetched
    && v.mutated == l.mutated && v.removed == l.removals && v.timely == l.timely && v.grantedAt == l.grantedAt
    && (v.resync ==> v.restartAt == l.restartAt)
  }

  /** What every report says, error or not. */
  ghost predicate Truthful(initial: Sys, trace: seq<Txn>, world: World, arms: seq<Arm>, folder: FolderId, r: Report) {
    // It stops, whatever the provider answers.
    && r.fetches <= 1000 && r.refreshes <= 1 && r.calls <= 1001
    // The fetched pages are what the provider delivered, each asked for by the one before it.
    && r.fetched == PagesDelivered(world, arms, r.first, r.calls)
    // It commits a prefix of what it fetched, and no continuation twice.
    && (r.version.Some? ==>
          var committed := PagesUnder(Committed(initial, trace), folder, r.version.value);
          && committed <= r.fetched && |r.fetched| <= |committed| + 1
          && DistinctContinuations(committed)
          // Its totals are the messages, the changes and the removals of the pages it committed.
          && r.result.processed == TotalMessages(committed)
          && Tallied(initial, trace, folder, r.version.value, committed, r.result.mutated, r.result.removals))
    // It cleans up at the last page of a restarted run and nowhere else; a run that was not overtaken
    // before its lease plays by the row's generation.
    && (r.version.Some? ==> KeepsProtocol(initial, trace, r.timely, r.grantedAt, folder, r.version.value))
    // As the arms are written an expired cursor restarts nothing; met first, it ends the run in error.
    && (arms == ARMS_AS_WRITTEN ==> !r.result.resync)
    && (arms == ARMS_AS_WRITTEN && r.calls > 0 && ExpiredCursor(world.provider(0, r.first)) ==>
          r.result.error.Some? && r.fetched == [])
  }

  /** What an error-free report says on top. */
  ghost predicate Complete(initial: Sys, trace: seq<Txn>, folder: FolderId, r: Report) {
    && r.version.Some? && r.fetched != [] && r.result.state == DeltaTracking
    // Every page was committed, and the last one moved the folder to DELTA_TRACKING.
    && PagesUnder(Committed(initial, trace), folder, r.version.value) == r.fetched
    && (forall i :: 0 <= i < |r.fetched| - 1 ==> r.fetched[i].hasMore && !r.fetched[i].checkpoint)
    && (r.fetched[|r.fetched| - 1].checkpoint || !r.fetched[|r.fetched| - 1].hasMore)
    && NoneFinal(r.fetched[..|r.fetched| - 1]) && Final(r.fetched[|r.fetched| - 1])
    && CommittedAt(initial, trace, r.finalAt, folder, r.version.value, r.fetched[|r.fetched| - 1])
    && r.result.processed == TotalMessages(r.fetched)
    // A completed resync left the folder exact if its stamps were older, and so whenever no run of the
    // interleaving was overtaken.
    && (r.result.resync ==>
          && ExactAt(initial, trace, r.finalAt, folder, r.version.value, r.restartAt)
          && (StampsBounded(initial) && AllTimely(initial, trace) ==>
                LeftExact(initial, trace, r.finalAt, folder, r.restartAt)))
  }

  /** Why a run that had its lease ended in error: it fetched as many pages as it may and none was the last;
      the last page led on to a continuation asked for or named before; the provider failed; or somebody's
      clock may have run past the lease. */
  ghost predicate HasReason(world: World, arms: seq<Arm>, limit: Option<Time>, r: Report) {
    match r.result.error
    case Some(TooManyPages) =>
      r.fetches == 1000 && forall i :: 0 <= i < |r.fetched| ==> r.fetched[i].hasMore && !r.fetched[i].checkpoint
    case Some(LoopDetected) => GoesInCircles(world, arms, r.first, r.calls, r.fetched)
    case Some(Raised(_)) => ProviderFailed(world, arms, r)
    case Some(LeaseLost) => limit.None?
    case Some(LostAtPage) => limit.None?
    case Some(_) => false
    case None => true
  }

  ghost predicate GoesInCircles(world: World, arms: seq<Arm>, first: Option<string>, calls: nat, pages: seq<Page>) {
    && pages != []
    && var last := pages[|pages| - 1];
       && LeadsOn(last)
       && (Brought(pages[..|pages| - 1], last.next.value) || WasAsked(world, arms, first, calls, last.next))
  }

  ghost predicate WasAsked(world: World, arms: seq<Arm>, first: Option<string>, calls: nat, token: Option<string>) {
    exists k :: 0 <= k < calls && Asked(world, arms, first, k) == token
  }

  ghost predicate ProviderFailed(world: World, arms: seq<Arm>, r: Report) {
    exists k :: 0 <= k < r.calls && FailedAt(world, arms, r, k)
  }

  /** The k-th delta call failed, and the report says so with the arms as written or as documented. */
  ghost predicate FailedAt(world: World, arms: seq<Arm>, r: Report, k: nat) {
    var reply := world.provider(k, Asked(world, arms, r.first, k));
    reply.Failed? && (arms in {ARMS_AS_WRITTEN, ARMS_AS_DOCUMENTED} ==> Reports(r.result, reply.fault))
  }

  /** The state and the time to wait that an error leads to: half a minute if the provider is rate limiting,
      five seconds if it is unavailable, unless it says otherwise. */
  ghost predicate Reports(result: SyncResult, fault: Fault) {
    var named := fault.retryAfter.Some? && fault.retryAfter.value != 0;
    if fault.kind.AuthExpired? then result.state.AuthRequired? && result.retryAfter.None?
    else if fault.kind.Permission? || fault.kind.NotFound? then result.state.Error? && result.retryAfter.None?
    else if fault.kind.RateLimited? then
      result.retryAfter == if named then fault.retryAfter else Some(30)
    else if !fault.kind.NotFromProvider? && fault.statusCode.Some? && fault.statusCode.value >= 500 then
      result.retryAfter == if named then fault.retryAfter else Some(5)
    else result.retryAfter.None?
  }

  /** Nobody else's clock passes the limit, and every lease the run asks for lasts that long. */
  ghost predicate InTime(world: World, folder: FolderId, duration: int, limit: Option<Time>) {
    && (forall k: nat :: Unhurried(world.others(k), folder, limit))
    && (forall k: nat :: limit.Some? ==> limit.value <= world.clock(k) + duration)
  }

  /** Such a limit, if there is one. */
  ghost function LimitOf(world: World, folder: FolderId, duration: int): (limit: Option<Time>)
    ensures InTime(world, folder, duration, limit)
    ensures limit.None? <==> forall t: Time :: !InTime(world, folder, duration, Some(t))
  {
    if t: Time :| InTime(world, folder, duration, Some(t)) then Some(t) else None
  }

  lemma GrantIsKept(row: Register<SyncColumns>, world: World, folder: FolderId, worker: Worker, version: nat,
        duration: int, limit: Option<Time>)
    requires row.lease == Lease(Some(worker), Some(world.clock(0) + duration), version)
    requires InTime(world, folder, duration, limit)
    ensures Kept(row, worker, version, limit)
  {
  }

  lemma InTimeAt(world: World, folder: FolderId, duration: int, limit: Option<Time>, k: nat)
    requires InTime(world, folder, duration, limit)
    ensures Unhurried(world.others(k), folder, limit) && (limit.Some? ==> limit.value <= world.clock(k) + duration)
  {
  }

  lemma BecauseOfDepth(world: World, arms: seq<Arm>, limit: Option<Time>, r: Report)
    requires r.result.error == Some(TooManyPages) && r.fetches == MAX_PAGES && NoneFinal(r.fetched)
    ensures HasReason(world, arms, limit, r)
  {
  }

  lemma BecauseOfTheLease(world: World, arms: seq<Arm>, limit: Option<Time>, r: Report)
    requires (r.result.error == Some(LeaseLost) || r.result.error == Some(LostAtPage)) && limit.None?
    ensures HasReason(world, arms, limit, r)
  {
  }

  lemma BecauseOfTheProvider(world: World, arms: seq<Arm>, limit: Option<Time>, r: Report, call: nat,
        verdict: Verdict, current: SyncStatus, folder: FolderId, worker: Worker, version: nat, now: Time)
    requires verdict.Leave? && r.result.error == Some(Raised(verdict.fault))
    requires r.result.state == verdict.state && r.result.retryAfter == verdict.retryAfter
    requires call < r.calls && world.provider(call, Asked(world, arms, r.first, call)).Failed?
    requires arms in {ARMS_AS_WRITTEN, ARMS_AS_DOCUMENTED} ==>
               LeavesAsItShould(verdict, world.provider(call, Asked(world, arms, r.first, call)).fault, current, folder,
                                worker, version, now)
    ensures HasReason(world, arms, limit, r)
  {
    assert FailedAt(world, arms, r, call);
  }

  lemma BecauseItCircles(world: World, arms: seq<Arm>, limit: Option<Time>, r: Report)
    requires r.result.error == Some(LoopDetected) && GoesInCircles(world, arms, r.first, r.calls, r.fetched)
    ensures HasReason(world, arms, limit, r)
  {
  }

  lemma RepeatsGoInCircles(world: World, arms: seq<Arm>, first: Option<string>, l: Locals, page: Page, calls: nat)
    requires OnTrack(world, arms, first, l) && l.calls < calls && Continues(page)
    requires page.next == l.token || page.next.value in l.seen
    ensures GoesInCircles(world, arms, first, calls, l.fetched + [page])
  {
    hide Asked, PagesDelivered, Brought;
    assert (l.fetched + [page])[..|l.fetched|] == l.fetched;
  }

  datatype Outcome = Next | Finished | Stopped(report: Report)

  function ReportOf(l: Locals, version: nat, first: Option<string>, fetched: seq<Page>, fetches: nat,
      result: SyncResult): Report {
    Report(result, Some(version), first, fetched, fetches, l.calls, l.refreshes, l.restartAt, l.finalAt,
           l.timely, l.grantedAt)
  }

  function ResultOf(l: Locals, state: SyncStatus, resync: bool, error: Option<Problem>,
      retryAfter: Option<int>): SyncResult {
    SyncResult(state, l.processed, l.mutated, l.removals, resync, error, retryAfter)
  }

  /** An early exit with what was fetched so far, or with one more page fetched but not committed. */
  lemma StopIsTruthful(initial: Sys, trace: seq<Txn>, world: World, arms: seq<Arm>, folder: FolderId, version: nat,
                       first: Option<string>, l: Locals, pages: seq<Page>, r: Report)
    requires Tallied(initial, trace, folder, version, pages, r.result.mutated, r.result.removals)
    requires r.result.processed == TotalMessages(pages)
    requires r.version == Some(version) && r.first == first && r.calls == l.calls && r.refreshes == l.refreshes
    requires r.fetches <= MAX_PAGES && l.calls <= MAX_PAGES + l.refreshes && l.refreshes <= 1
    requires r.fetched == PagesDelivered(world, arms, first, l.calls)
    requires pages <= r.fetched && |r.fetched| <= |pages| + 1 && DistinctContinuations(pages)
    requires r.result.error.Some? && (arms == ARMS_AS_WRITTEN ==> !r.result.resync)
    requires arms == ARMS_AS_WRITTEN && l.calls > 0 && ExpiredCursor(world.provider(0, first)) ==> r.fetched == []
    requires KeepsProtocol(initial, trace, r.timely, r.grantedAt, folder, version)
    ensures Truthful(initial, trace, world, arms, folder, r)
  {
  }

  /** An early exit: the last statement lets go of the lease, and the report says how far the run got. */
  method Exit(db: Database, t: Txn, others: seq<Txn>, folder: FolderId, worker: Worker, version: nat, world: World,
              arms: seq<Arm>, l: Locals, r: Report, ghost v: View)
    requires db.AsFound() && Inv(db.initial, db.trace, v) && v.folder == folder && v.version == version
    requires (t.Mark? || t.Release?) && t.folder == folder && t.worker == worker && t.version == version
    requires r.version == Some(version) && r.calls == l.calls && r.refreshes == l.refreshes
    requires r.fetches <= MAX_PAGES && l.calls <= MAX_PAGES + l.refreshes && l.refreshes <= 1
    requires r.fetched == PagesDelivered(world, arms, r.first, l.calls)
    requires v.committed <= r.fetched && |r.fetched| <= |v.committed| + 1 && DistinctContinuations(v.committed)
    requires EndedInError(r.result) && (arms == ARMS_AS_WRITTEN ==> !r.result.resync)
    requires arms == ARMS_AS_WRITTEN && l.calls > 0 && ExpiredCursor(world.provider(0, r.first)) ==> r.fetched == []
    requires r.timely == v.timely && r.grantedAt == v.grantedAt
    requires r.result.mutated == v.mutated && r.result.removals == v.removed
    requires r.result.processed == TotalMessages(v.committed)
    modifies db, db.store
    ensures db.AsFound() && old(db.trace) <= db.trace
    ensures Truthful(db.initial, db.trace, world, arms, folder, r) && !Holds(RowOf(db.State(), folder), worker, version)
  {
    hide ApplyAll, WellKept, Valid, Inv, Run, Committed, PagesUnder, Tallied, PagesDelivered, DistinctContinuations,
         Truthful, Holds, RowOf, KeepsProtocol;
    db.End(t, others, folder, version, v);
    StopIsTruthful(db.initial, db.trace, world, arms, folder, version, r.first, l, v.committed, r);
  }

  /** One turn of the loop. */
  method Turn(db: Database, folder: FolderId, worker: Worker, duration: int, world: World, arms: seq<Arm>,
      authService: bool,
              version: nat, first: Option<string>, l: Locals, ghost v: View, ghost limit: Option<Time>)
    returns (next: Locals, outcome: Outcome, ghost w: View)
    requires db.AsFound() && Inv(db.initial, db.trace, v) && Views(v, folder, worker, version, l)
    requires OnTrack(world, arms, first, l) && NoneFinal(l.fetched)
    requires InTime(world, folder, duration, limit) && Kept(RowOf(db.State(), folder), worker, version, limit)
    modifies db, db.store
    ensures db.AsFound() && old(db.trace) <= db.trace
    ensures !outcome.Stopped? ==>
              Inv(db.initial, db.trace, w) && Views(w, folder, worker, version, next)
              && OnTrack(world, arms, first, next) && Kept(RowOf(db.State(), folder), worker, version, limit)
    ensures outcome.Next? ==> NoneFinal(next.fetched) && next.pageCount == l.pageCount + 1
    ensures outcome.Finished? ==> Closed(db.initial, db.trace, folder, version, next)
    ensures outcome.Stopped? ==> EndedInError(outcome.report.result)
                                 && outcome.report.first == first
                                 && outcome.report.version == Some(version)
                                 && Truthful(db.initial, db.trace, world, arms, folder, outcome.report)
                                 && HasReason(world, arms, limit, outcome.report)
                                 && !Holds(RowOf(db.State(), folder), worker, version)
  {
    hide ApplyAll, ApplyChange, WellKept, Valid, Inv, Run, Committed, PagesUnder, Tallied, ExactAt, CommittedAt,
         Dispatch, Asked, PagesDelivered, Final, TotalMessages, DistinctContinuations, Booked, NoneFinal, Truthful,
         Holds, RowOf, KeepsProtocol, LeavesAsItShould, HasReason, InTime, Kept, Unhurried;
    BookedDistinctly(l.fetched, l.seen, l.processed);
    NothingAskedYet(world, arms, first);
    next, w := l.(pageCount := l.pageCount + 1), v;
    if next.pageCount > MAX_PAGES {
      var r := ReportOf(l, version, first, l.fetched, l.pageCount,
          ResultOf(l, l.current, false, Some(TooManyPages), None));
      BecauseOfDepth(world, arms, limit, r);
      Exit(db, Release(folder, worker, version, world.clock(l.tick)), world.others(l.tick), folder, worker, version,
           world, arms, l, r, v);
      return next, Stopped(r), w;
    }
    // Check the lease before the outbound call.
    InTimeAt(world, folder, duration, limit, l.tick);
    InTimeAt(world, folder, duration, limit, l.tick + 1);
    var renewed :=
      db.RenewLease(world.clock(l.tick), duration, world.others(l.tick), folder, worker, version, v, limit);
    next := next.(tick := l.tick + 1);
    if !renewed {
      var r := ReportOf(l, version, first, l.fetched, l.pageCount,
          ResultOf(l, l.current, false, Some(LeaseLost), None));
      BecauseOfTheLease(world, arms, limit, r);
      StopIsTruthful(db.initial, db.trace, world, arms, folder, version, first, l, l.fetched, r);
      return next, Stopped(r), w;
    }
    var verdict, more, again :=
      Answer(world, arms, first, l.calls, l.token, authService, l.refreshes > 0, l.current, folder, worker, version,
             world.clock(next.tick));
    next := next.(calls := l.calls + more, refreshes := l.refreshes + again);
    if verdict.Leave? {
      var r := ReportOf(next, version, first, l.fetched, next.pageCount,
                        ResultOf(l, verdict.state, l.resync && verdict.raised, Some(Raised(verdict.fault)),
                            verdict.retryAfter));
      BecauseOfTheProvider(world, arms, limit, r, l.calls, verdict, l.current, folder, worker, version,
                           world.clock(next.tick));
      Exit(db, verdict.t, world.others(next.tick), folder, worker, version, world, arms, next, r, v);
      return next, Stopped(r), w;
    }
    if verdict.StartOver? {
      w := db.RestartDelta(world.clock(next.tick), world.others(next.tick), folder, worker, version, l.generation + 1,
          v, limit);
      next := next.(generation := l.generation + 1, token := None, current := Syncing, resync := true,
                    restartAt := |db.trace|, tick := next.tick + 1);
      return next, Next, w;
    }
    next, outcome, w :=
      Take(db, folder, worker, duration, world, arms, version, first, l, next, verdict.page, v, limit);
  }

  /** What a run that saw its final page leaves in the database. */
  ghost predicate Closed(initial: Sys, trace: seq<Txn>, folder: FolderId, version: nat, l: Locals) {
    && l.fetched != [] && NoneFinal(l.fetched[..|l.fetched| - 1]) && Final(l.fetched[|l.fetched| - 1])
    && l.current == DeltaTracking
    && CommittedAt(initial, trace, l.finalAt, folder, version, l.fetched[|l.fetched| - 1])
    && (l.resync ==> ExactAt(initial, trace, l.finalAt, folder, version, l.restartAt))
  }

  /** A fetched page that is new: commit it, and go on unless it was the last. */
  method CommitFetched(db: Database, folder: FolderId, worker: Worker, duration: int, world: World, arms: seq<Arm>,
              version: nat, first: Option<string>, l: Locals, at: Locals, page: Page, ghost v: View,
              ghost limit: Option<Time>)
    returns (next: Locals, outcome: Outcome, ghost w: View)
    requires db.AsFound() && Inv(db.initial, db.trace, v) && Views(v, folder, worker, version, l)
    requires OnTrack(world, arms, first, l) && NoneFinal(l.fetched)
    requires InTime(world, folder, duration, limit) && Kept(RowOf(db.State(), folder), worker, version, limit)
    requires at == l.(pageCount := l.pageCount + 1, tick := l.tick + 1, calls := at.calls, refreshes := at.refreshes,
                      seen := if Continues(page) then l.seen + {page.next.value} else l.seen)
    requires Continues(page) ==> page.next.value !in l.seen
    requires l.calls < at.calls <= at.pageCount + at.refreshes && at.pageCount <= MAX_PAGES && at.refreshes <= 1
    requires Asked(world, arms, first, at.calls) == page.next
    requires PagesDelivered(world, arms, first, at.calls) == l.fetched + [page]
    requires arms == ARMS_AS_WRITTEN ==> !ExpiredCursor(world.provider(0, first))
    modifies db, db.store
    ensures db.AsFound() && old(db.trace) <= db.trace
    ensures !outcome.Stopped? ==>
              Inv(db.initial, db.trace, w) && Views(w, folder, worker, version, next)
              && OnTrack(world, arms, first, next) && Kept(RowOf(db.State(), folder), worker, version, limit)
    ensures outcome.Next? ==> NoneFinal(next.fetched) && next.pageCount == l.pageCount + 1
    ensures outcome.Finished? ==> Closed(db.initial, db.trace, folder, version, next)
    ensures outcome.Stopped? ==> EndedInError(outcome.report.result)
                                 && outcome.report.first == first
                                 && outcome.report.version == Some(version)
                                 && Truthful(db.initial, db.trace, world, arms, folder, outcome.report)
                                 && HasReason(world, arms, limit, outcome.report)
                                 && !Holds(RowOf(db.State(), folder), worker, version)
  {
    hide ApplyAll, ApplyChange, WellKept, Valid, Inv, Run, Committed, PagesUnder, Tallied, ExactAt, CommittedAt,
         Dispatch, Asked, PagesDelivered, Final, TotalMessages, DistinctContinuations, Booked, NoneFinal, Truthful,
         ExpiredCursor, Holds, RowOf, KeepsProtocol, Effective, OlderThan, HasReason, InTime, Kept, Unhurried,
         GoesInCircles;
    BookedDistinctly(l.fetched, l.seen, l.processed);
    next, w := at, v;
    InTimeAt(world, folder, duration, limit, at.tick);
    var ok, pageMutated, pageRemoved;
    ok, pageMutated, pageRemoved, w :=
      db.CommitOwnPage(world.clock(at.tick), duration, world.others(at.tick), folder, worker, version, l.generation,
                       page, l.resync, v, limit);
    if !ok {
      var r := ReportOf(at, version, first, l.fetched + [page], at.pageCount,
                        ResultOf(l, l.current, l.resync, Some(LostAtPage), None));
      BecauseOfTheLease(world, arms, limit, r);
      Exit(db, Release(folder, worker, version, world.clock(at.tick + 1)), world.others(at.tick + 1), folder, worker,
           version, world, arms, at, r, w);
      return next, Stopped(r), w;
    }
    PageIsBooked(l.fetched, l.seen, l.processed, page);
    next := next.(fetched := l.fetched + [page], processed := l.processed + |page.messages|,
                  mutated := l.mutated + pageMutated, removals := l.removals + pageRemoved,
                  token := page.next, current := StateAfter(page), finalAt := |db.trace| - 1, tick := at.tick + 1);
    outcome := if Final(page) then Finished else Next;
    if Final(page) {
      FinalStateIsTracking(page);
    }
  }

  /** A fetched page: refuse a repeated continuation, else commit it. */
  method Take(db: Database, folder: FolderId, worker: Worker, duration: int, world: World, arms: seq<Arm>,
              version: nat, first: Option<string>, l: Locals, at: Locals, page: Page, ghost v: View,
              ghost limit: Option<Time>)
    returns (next: Locals, outcome: Outcome, ghost w: View)
    requires db.AsFound() && Inv(db.initial, db.trace, v) && Views(v, folder, worker, version, l)
    requires OnTrack(world, arms, first, l) && NoneFinal(l.fetched)
    requires InTime(world, folder, duration, limit) && Kept(RowOf(db.State(), folder), worker, version, limit)
    requires at == l.(pageCount := l.pageCount + 1, tick := l.tick + 1, calls := at.calls, refreshes := at.refreshes)
    requires l.calls < at.calls <= at.pageCount + at.refreshes && at.pageCount <= MAX_PAGES && at.refreshes <= 1
    requires Asked(world, arms, first, at.calls) == page.next
    requires PagesDelivered(world, arms, first, at.calls) == l.fetched + [page]
    requires arms == ARMS_AS_WRITTEN ==> !ExpiredCursor(world.provider(0, first))
    modifies db, db.store
    ensures db.AsFound() && old(db.trace) <= db.trace
    ensures !outcome.Stopped? ==>
              Inv(db.initial, db.trace, w) && Views(w, folder, worker, version, next)
              && OnTrack(world, arms, first, next) && Kept(RowOf(db.State(), folder), worker, version, limit)
    ensures outcome.Next? ==> NoneFinal(next.fetched) && next.pageCount == l.pageCount + 1
    ensures outcome.Finished? ==> Closed(db.initial, db.trace, folder, version, next)
    ensures outcome.Stopped? ==> EndedInError(outcome.report.result)
                                 && outcome.report.first == first
                                 && outcome.report.version == Some(version)
                                 && Truthful(db.initial, db.trace, world, arms, folder, outcome.report)
                                 && HasReason(world, arms, limit, outcome.report)
                                 && !Holds(RowOf(db.State(), folder), worker, version)
  {
    hide ApplyAll, ApplyChange, WellKept, Valid, Inv, Run, Committed, PagesUnder, Tallied, ExactAt, CommittedAt,
         Dispatch, Asked, PagesDelivered, Final, TotalMessages, DistinctContinuations, Booked, NoneFinal, Truthful,
         ExpiredCursor, Holds, RowOf, KeepsProtocol, Effective, OlderThan, HasReason, InTime, Kept, Unhurried,
         GoesInCircles;
    BookedDistinctly(l.fetched, l.seen, l.processed);
    if Continues(page) && (page.next == l.token || page.next.value in l.seen) {
      RepeatsGoInCircles(world, arms, first, l, page, at.calls);
      var r := ReportOf(at, version, first, l.fetched + [page], at.pageCount,
                        ResultOf(l, l.current, false, Some(LoopDetected), None));
      BecauseItCircles(world, arms, limit, r);
      Exit(db, Release(folder, worker, version, world.clock(at.tick)), world.others(at.tick), folder, worker, version,
           world, arms, at, r, v);
      return at, Stopped(r), v;
    }
    next := at.(seen := if Continues(page) then l.seen + {page.next.value} else l.seen);
    next, outcome, w :=
      CommitFetched(db, folder, worker, duration, world, arms, version, first, l, next, page, v, limit);
  }

  lemma FinalStateIsTracking(page: Page)
    requires Final(page)
    ensures StateAfter(page) == DeltaTracking
  {
  }

  /** The transaction at this position moved its folder's row. */
  ghost predicate MovedAt(initial: Sys, trace: seq<Txn>, i: nat)
    requires i < |trace|
  {
    MovesRow(RowOf(Run(initial, trace[..i]), trace[i].folder), RowOf(Run(initial, trace[..i + 1]), trace[i].folder),
             trace[i])
  }

  lemma TransactionMovesItsRow(initial: Sys, trace: seq<Txn>, i: nat)
    requires i < |trace| && Effective(Run(initial, trace[..i]), trace[i])
    ensures MovedAt(initial, trace, i)
  {
    hide MovesRow, RowOf, Step, Effective;
    assert trace[..i + 1][..i] == trace[..i];
    TransactionsMoveRows(Run(initial, trace[..i]), trace[i]);
  }

  lemma AllMoved(initial: Sys, trace: seq<Txn>)
    ensures forall i :: 0 <= i < |trace| && Effective(Run(initial, trace[..i]), trace[i]) ==> MovedAt(initial, trace, i)
  {
    hide MovedAt, Run, Effective;
    forall i | 0 <= i < |trace| && Effective(Run(initial, trace[..i]), trace[i]) ensures MovedAt(initial, trace, i) {
      TransactionMovesItsRow(initial, trace, i);
    }
  }

  lemma NoneFinalMeans(pages: seq<Page>)
    ensures NoneFinal(pages) <==> forall i :: 0 <= i < |pages| ==> pages[i].hasMore && !pages[i].checkpoint
  {
  }

  /** The paging loop, from the grant to the release. */
  method PageThrough(db: Database, folder: FolderId, worker: Worker, duration: int, world: World, arms: seq<Arm>,
                     authService: bool, version: nat, start: Locals, ghost granted: View, ghost limit: Option<Time>)
      returns (r: Report)
    requires db.AsFound() && Inv(db.initial, db.trace, granted) && Views(granted, folder, worker, version, start)
    requires OnTrack(world, arms, start.token, start) && start.fetched == [] && start.pageCount == start.calls == 0
    requires InTime(world, folder, duration, limit) && Kept(RowOf(db.State(), folder), worker, version, limit)
    modifies db, db.store
    ensures db.AsFound() && old(db.trace) <= db.trace
    ensures r.first == start.token && r.version == Some(version) && r.result.error != Some(FolderNotFound)
    ensures Truthful(db.initial, db.trace, world, arms, folder, r)
    ensures r.result.error.None? ==> Complete(db.initial, db.trace, folder, r)
    ensures !Holds(RowOf(db.State(), folder), worker, version)
    ensures HasReason(world, arms, limit, r)
  {
    hide ApplyAll, ApplyChange, WellKept, Valid, Inv, Run, Committed, PagesUnder, Tallied, ExactAt, CommittedAt,
         Dispatch, Asked, PagesDelivered, TotalMessages, DistinctContinuations, Booked, NoneFinal, KeepsProtocol,
         AllTimely, StampsBounded, LeftExact, Effective, InTime, Kept;
    NothingIsBookedYet();
    NothingAskedYet(world, arms, start.token);
    var first, l := start.token, start;
    ghost var v := granted;
    var outcome := Next;
    while outcome.Next?
      invariant db.AsFound() && old(db.trace) <= db.trace
      invariant outcome.Next? ==> NoneFinal(l.fetched)
      invariant !outcome.Stopped? ==>
                Inv(db.initial, db.trace, v) && Views(v, folder, worker, version, l)
                && OnTrack(world, arms, first, l) && Kept(RowOf(db.State(), folder), worker, version, limit)
      invariant outcome.Finished? ==> Closed(db.initial, db.trace, folder, version, l)
      invariant outcome.Stopped? ==> EndedInError(outcome.report.result)
                                     && outcome.report.first == first
                                     && outcome.report.version == Some(version)
                                     && Truthful(db.initial, db.trace, world, arms, folder, outcome.report)
                                     && HasReason(world, arms, limit, outcome.report)
                                     && !Holds(RowOf(db.State(), folder), worker, version)
      decreases outcome.Next?, MAX_PAGES + 1 - l.pageCount
    {
      l, outcome, v := Turn(db, folder, worker, duration, world, arms, authService, version, first, l, v, limit);
    }
    if outcome.Stopped? {
      return outcome.report;
    }
    ghost var before := db.trace;
    BookedDistinctly(l.fetched, l.seen, l.processed);
    db.End(Release(folder, worker, version, world.clock(l.tick)), world.others(l.tick), folder, version, v);
    TallyNamesPages(db.initial, db.trace, folder, version, v.committed, v.mutated, v.removed);
    CommittedStays(db.initial, before, db.trace, l.finalAt, folder, version, l.fetched[|l.fetched| - 1]);
    if l.resync {
      ExactStays(db.initial, before, db.trace, l.finalAt, folder, version, l.restartAt);
      ExactAtMeans(db.initial, db.trace, l.finalAt, folder, version, l.restartAt);
      TimelyResyncsAreExact(db.initial, db.trace, l.finalAt, folder, version, l.restartAt);
    }
    r := ReportOf(l, version, first, l.fetched, l.pageCount, ResultOf(l, l.current, l.resync, None, None));
    NoneFinalMeans(l.fetched[..|l.fetched| - 1]);
  }

  /** One folder sync. */
  method SyncFolder(db: Database, folder: FolderId, worker: Worker, duration: int, world: World,
                    arms: seq<Arm>, authService: bool) returns (r: Report)
    requires db.AsFound()
    modifies db, db.store
    ensures db.AsFound() && old(db.trace) <= db.trace
    ensures folder !in db.folders ==>
              r.result == SyncResult(Error, 0, 0, 0, false, Some(FolderNotFound), None) && db.trace == old(db.trace)
    ensures folder !in old(db.rows) ==> r.first.None?
    ensures folder in db.folders ==>
              r.first == RowOf(old(db.State()), folder).payload.token && r.result.error != Some(FolderNotFound)
    ensures Truthful(db.initial, db.trace, world, arms, folder, r)
    ensures r.result.error.None? ==> Complete(db.initial, db.trace, folder, r)
    ensures r.version.Some? ==> !Holds(RowOf(db.State(), folder), worker, r.version.value)
    ensures r.version.Some? && r.result.error.Some? ==>
              HasReason(world, arms, LimitOf(world, folder, duration), r)
    ensures world.others(0) == [] ==>
              var l := RowOf(old(db.State()), folder).lease;
              r.version.Some? <==>
                folder in db.folders
                && (l.lockedBy.None? || (l.lockedUntil.Some? && l.lockedUntil.value < world.clock(0)))
    ensures forall i :: 0 <= i < |db.trace| && Effective(Run(db.initial, db.trace[..i]), db.trace[i]) ==>
              MovedAt(db.initial, db.trace, i)
  {
    hide ApplyAll, ApplyChange, WellKept, Valid, Inv, Run, Committed, PagesUnder, Tallied, Dispatch, Asked,
         PagesDelivered, DistinctContinuations, Booked, KeepsProtocol, MovedAt, Effective, Complete, HasReason,
         InTime, Kept, LimitOf;
    if folder !in db.folders {
      AllMoved(db.initial, db.trace);
      NothingAskedYet(world, arms, None);
      var result := SyncResult(Error, 0, 0, 0, false, Some(FolderNotFound), None);
      return Report(result, None, None, [], 0, 0, 0, 0, 0, false, 0);
    }
    var row := db.Row(folder);
    var first, generation, current := row.payload.token, row.payload.generation, row.payload.state;
    NothingAskedYet(world, arms, first);
    NothingIsBookedYet();
    var granted, timely, grantedAt;
    ghost var v;
    granted, timely, grantedAt, v := db.Acquire(world.clock(0), duration, world.others(0), folder, worker, generation);
    if granted.None? {
      AllMoved(db.initial, db.trace);
      return Report(SyncResult(current, 0, 0, 0, false, Some(LeaseUnavailable), None), None, first, [], 0, 0, 0, 0, 0,
                    false, 0);
    }
    var version := granted.value;
    var l := Locals(first, generation, current, 0, 0, 0, false, 0, 0, 0, {}, [], 0, 0, 1, timely, grantedAt);
    ghost var limit := LimitOf(world, folder, duration);
    GrantIsKept(RowOf(db.State(), folder), world, folder, worker, version, duration, limit);
    r := PageThrough(db, folder, worker, duration, world, arms, authService, version, l, v, limit);
    AllMoved(db.initial, db.trace);
  }
}
