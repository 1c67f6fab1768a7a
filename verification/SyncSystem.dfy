/** The folder syncs of one account as a system of committed transactions: any number of runs, on any
    folders, interleaved in any order and cut short at any point. */
module SyncSystem {
  import opened Leases
  import opened MailRepositories
  import opened MailData
  import opened MessageProcessing

  /** The sync state rows and the canonical tables. */
  datatype Sys = Sys(rows: map<FolderId, Register<SyncColumns>>, db: Db)

  /** One database transaction of a run. A page commits with its lease check, its mutations, the
      clean-up of stale memberships when a resync completes, and the new token, all or nothing. */
  datatype Txn =
    | Grab(folder: FolderId, worker: Worker, now: Time, duration: int)
    | Renew(folder: FolderId, worker: Worker, version: nat, now: Time, duration: int)
    | Restart(folder: FolderId, worker: Worker, version: nat, now: Time, generation: nat)
    | Mark(folder: FolderId, worker: Worker, version: nat, now: Time, state: SyncStatus)
    | Release(folder: FolderId, worker: Worker, version: nat, now: Time)
    | CommitPage(folder: FolderId, worker: Worker, version: nat, now: Time, duration: int,
                 generation: nat, page: Page, cleanup: bool, order: seq<MessageId>)

  /** A folder that was never synced gets this row on first use. */
  function RowOf(s: Sys, folder: FolderId): Register<SyncColumns> {
    if folder in s.rows then s.rows[folder]
    else Register(Lease(None, None, 1), SyncColumns(PendingInitialSync, None, 1, 0))
  }

  predicate Final(page: Page) {
    page.checkpoint || !page.hasMore
  }

  function StateAfter(page: Page): SyncStatus {
    if Final(page) then DeltaTracking else Syncing
  }

  function Statement(t: Txn): Op<SyncColumns> {
    match t
    case Grab(_, w, now, duration) => AcquireSyncOp(w, now, duration)
    case Renew(_, w, v, now, duration) => RenewSyncOp(w, v, now, duration)
    case Restart(_, w, v, now, g) => UpdateSyncOp(w, v, now, Syncing, None, Some(g), false, true)
    case Mark(_, w, v, now, state) => UpdateSyncOp(w, v, now, state, None, None, true, false)
    case Release(_, w, v, now) => ReleaseSyncOp(w, v, now)
    case CommitPage(_, w, v, now, duration, _, page, _, _) =>
      Write(w, v, s => SetSync(s, now, StateAfter(page), page.next, None, false), Extend(now + duration))
  }

  /** The page statement is the lease check followed by the token update. */
  lemma PageStatementIsRenewThenUpdate(r: Register<SyncColumns>, t: Txn)
    requires t.CommitPage?
    ensures Apply(r, Statement(t))
            == Apply(Apply(r, RenewSyncOp(t.worker, t.version, t.now, t.duration)),
                     UpdateSyncOp(t.worker, t.version, t.now, StateAfter(t.page), t.page.next, None, false, false))
  {
  }

  function Delta(t: Txn): seq<Change> {
    if !t.CommitPage? then []
    else PageChanges(t.folder, t.generation, t.page)
         + (if t.cleanup then Reconciliations(t.folder, t.order) else [])
  }

  /** The clean-up visits the stale rows as the table returns them. */
  ghost predicate Possible(s: Sys, t: Txn) {
    t.CommitPage? && t.cleanup ==>
      Enumerates(t.order, Stale(ApplyAll(s.db, PageChanges(t.folder, t.generation, t.page)), t.folder, t.generation))
  }

  ghost predicate Effective(s: Sys, t: Txn) {
    Possible(s, t) && Accepts(RowOf(s, t.folder), Statement(t))
  }

  ghost function Step(s: Sys, t: Txn): Sys {
    if Effective(s, t) then
      Sys(s.rows[t.folder := Apply(RowOf(s, t.folder), Statement(t))], ApplyAll(s.db, Delta(t)))
    else s
  }

  ghost function Run(s: Sys, txns: seq<Txn>): Sys {
    if txns == [] then s else Step(Run(s, txns[..|txns| - 1]), txns[|txns| - 1])
  }

  /** The transactions of a run that took effect. */
  ghost function Committed(s: Sys, txns: seq<Txn>): seq<Txn> {
    if txns == [] then []
    else
      var n := |txns| - 1;
      if Effective(Run(s, txns[..n]), txns[n]) then Committed(s, txns[..n]) + [txns[n]]
      else Committed(s, txns[..n])
  }

  lemma RunAppend(s: Sys, txns: seq<Txn>, t: Txn)
    ensures Run(s, txns + [t]) == Step(Run(s, txns), t)
    ensures Committed(s, txns + [t])
            == if Effective(Run(s, txns), t) then Committed(s, txns) + [t] else Committed(s, txns)
  {
    assert (txns + [t])[..|txns|] == txns;
  }

  lemma {:induction false} RunSplit(s: Sys, a: seq<Txn>, b: seq<Txn>)
    ensures Run(s, a + b) == Run(Run(s, a), b)
  {
    hide Step;
    if b == [] {
      assert a + b == a;
    } else {
      var n := |b| - 1;
      assert (a + b)[..|a + b| - 1] == a + b[..n];
      RunSplit(s, a, b[..n]);
    }
  }

  /** Column by column, what a transaction that takes effect does to its folder's row. */
  ghost predicate MovesRow(before: Register<SyncColumns>, after: Register<SyncColumns>, t: Txn) {
    var was, now := before.payload, after.payload;
    match t
    case Grab(_, w, clock, duration) =>
      after.lease == Lease(Some(w), Some(clock + duration), before.lease.version + 1) && now == was
    case Renew(_, _, _, clock, duration) =>
      after.lease == before.lease.(lockedUntil := Some(clock + duration)) && now == was.(updatedAt := clock)
    case Restart(_, _, _, clock, g) =>
      after.lease == before.lease && now == SyncColumns(Syncing, None, g, clock)
    case Mark(_, _, _, clock, state) =>
      after.lease == Lease(None, None, before.lease.version) && now == was.(state := state, updatedAt := clock)
    case Release(_, _, _, clock) =>
      after.lease == Lease(None, None, before.lease.version) && now == was.(updatedAt := clock)
    case CommitPage(_, _, _, clock, duration, _, page, _, _) =>
      && after.lease == before.lease.(lockedUntil := Some(clock + duration))
      && now.state == (if page.checkpoint || !page.hasMore then DeltaTracking else Syncing)
      && now.token == (if page.next.Some? then page.next else was.token)
      && now.generation == was.generation && now.updatedAt == clock
  }

  /** A transaction takes effect exactly on a lease that is free or expired, or held under its version. */
  lemma TransactionsMoveRows(s: Sys, t: Txn)
    ensures Effective(s, t) ==> MovesRow(RowOf(s, t.folder), RowOf(Step(s, t), t.folder), t)
    ensures Effective(s, t) ==> Step(s, t).db == ApplyAll(s.db, Delta(t))
    ensures forall folder :: folder != t.folder || !Effective(s, t) ==> RowOf(Step(s, t), folder) == RowOf(s, folder)
    ensures var l := RowOf(s, t.folder).lease;
            Effective(s, t) <==>
              && Possible(s, t)
              && if t.Grab? then l.lockedBy.None? || (l.lockedUntil.Some? && l.lockedUntil.value < t.now)
                 else l.lockedBy == Some(t.worker) && l.version == t.version
  {
    hide ApplyAll, Delta, Possible;
  }

  // --- the tables and the token are two readings of one log -----------------------------

  /** Every table change of a log of transactions, in order. */
  function Deltas(log: seq<Txn>): seq<Change> {
    if log == [] then [] else Deltas(log[..|log| - 1]) + Delta(log[|log| - 1])
  }

  function ContinuationAfter(t: Txn, folder: FolderId, before: Option<string>): Option<string> {
    if t.folder != folder then before
    else if t.CommitPage? && t.page.next.Some? then t.page.next
    else if t.Restart? then None
    else before
  }

  /** The continuation to resume from: the last one a page of the folder brought along, forgotten at
      every restart. */
  function LastContinuation(log: seq<Txn>, folder: FolderId, first: Option<string>): Option<string> {
    if log == [] then first
    else ContinuationAfter(log[|log| - 1], folder, LastContinuation(log[..|log| - 1], folder, first))
  }

  lemma {:induction false} TablesAreTheFold(s: Sys, txns: seq<Txn>)
    ensures Run(s, txns).db == ApplyAll(s.db, Deltas(Committed(s, txns)))
  {
    hide ApplyChange, Delta, Statement, Accepts, Possible;
    if txns != [] {
      var n := |txns| - 1;
      var front, t := txns[..n], txns[n];
      TablesAreTheFold(s, front);
      if Effective(Run(s, front), t) {
        var log := Committed(s, front);
        assert Committed(s, txns) == log + [t];
        assert (log + [t])[..|log|] == log;
        ApplyAllAppends(s.db, Deltas(log), Delta(t));
      }
    }
  }

  lemma TokenAfterStatement(r: Register<SyncColumns>, t: Txn)
    requires Accepts(r, Statement(t))
    ensures Apply(r, Statement(t)).payload.token == ContinuationAfter(t, t.folder, r.payload.token)
  {
  }

  lemma TokenAfterStep(s: Sys, t: Txn, folder: FolderId)
    ensures RowOf(Step(s, t), folder).payload.token
            == if Effective(s, t) then ContinuationAfter(t, folder, RowOf(s, folder).payload.token)
               else RowOf(s, folder).payload.token
  {
    hide ApplyAll, Delta, Statement, Possible, Accepts, Apply;
    if Effective(s, t) {
      TokenAfterStatement(RowOf(s, t.folder), t);
    }
  }

  lemma {:induction false} TokenIsTheLastContinuation(s: Sys, txns: seq<Txn>, folder: FolderId)
    ensures RowOf(Run(s, txns), folder).payload.token
            == LastContinuation(Committed(s, txns), folder, RowOf(s, folder).payload.token)
  {
    hide Step, Effective, ContinuationAfter, RowOf;
    if txns != [] {
      var n := |txns| - 1;
      var front, t := txns[..n], txns[n];
      TokenIsTheLastContinuation(s, front, folder);
      TokenAfterStep(Run(s, front), t, folder);
      var log := Committed(s, front);
      assert (log + [t])[..|log|] == log;
    }
  }

  /** Page atomicity: at every point of every interleaving, and so after a crash there, the canonical
      tables are the fold of exactly the committed pages, and each folder's stored token is the last
      continuation those same pages brought. Neither is ever ahead of the other. */
  lemma TablesAndTokenComeFromOneLog(s: Sys, txns: seq<Txn>, folder: FolderId, n: nat)
    requires n <= |txns|
    ensures var log := Committed(s, txns[..n]);
            && Run(s, txns[..n]).db == ApplyAll(s.db, Deltas(log))
            && RowOf(Run(s, txns[..n]), folder).payload.token
               == LastContinuation(log, folder, RowOf(s, folder).payload.token)
  {
    TablesAreTheFold(s, txns[..n]);
    TokenIsTheLastContinuation(s, txns[..n], folder);
  }

  lemma {:induction false} TablesStayValid(s: Sys, txns: seq<Txn>)
    requires Valid(s.db)
    ensures Valid(Run(s, txns).db)
  {
    hide ApplyChange, Valid;
    if txns != [] {
      TablesStayValid(s, txns[..|txns| - 1]);
      LedgerHolds(Run(s, txns[..|txns| - 1]).db, Delta(txns[|txns| - 1]));
    }
  }

  // --- one folder has one writer --------------------------------------------------------

  /** What each transaction does to the row of one folder. */
  ghost function Statements(s: Sys, txns: seq<Txn>, folder: FolderId): (ops: seq<Op<SyncColumns>>)
    ensures |ops| == |txns|
    ensures forall i :: 0 <= i < |ops| ==> ops[i] == StatementAt(s, txns, folder, i)
  {
    seq(|txns|, i requires 0 <= i < |txns| => StatementAt(s, txns, folder, i))
  }

  ghost function StatementAt(s: Sys, txns: seq<Txn>, folder: FolderId, i: nat): Op<SyncColumns>
    requires i < |txns|
  {
    if txns[i].folder == folder && Possible(Run(s, txns[..i]), txns[i]) then Statement(txns[i]) else Skip
  }

  lemma RowAfterStep(s: Sys, t: Txn, folder: FolderId)
    ensures RowOf(Step(s, t), folder)
            == Apply(RowOf(s, folder), if t.folder == folder && Possible(s, t) then Statement(t) else Skip)
  {
    hide ApplyAll, Delta, Statement, Possible;
  }

  /** The row of a folder is a fenced register that only that folder's transactions write to. */
  lemma {:induction false} RowIsTheRegister(s: Sys, txns: seq<Txn>, folder: FolderId, n: nat)
    requires n <= |txns|
    ensures RowOf(Run(s, txns[..n]), folder) == At(RowOf(s, folder), Statements(s, txns, folder), n)
  {
    hide Step, RowOf, Apply;
    if n > 0 {
      RowIsTheRegister(s, txns, folder, n - 1);
      assert txns[..n][..n - 1] == txns[..n - 1];
      RowAfterStep(Run(s, txns[..n - 1]), txns[n - 1], folder);
    }
  }

  lemma LeaseVersionsGrow(s: Sys, txns: seq<Txn>, folder: FolderId)
    ensures RowOf(s, folder).lease.version <= RowOf(Run(s, txns), folder).lease.version
  {
    hide RowOf, Run;
    assert txns[..|txns|] == txns;
    RowIsTheRegister(s, txns, folder, |txns|);
    VersionNeverDecreases(RowOf(s, folder), Statements(s, txns, folder), 0, |txns|);
  }

  /** Between two moments at which the folder is at the same lease version, every effective
      transaction on it carries that version. */
  lemma {:induction false} OnlyTheHolderWrites(s: Sys, txns: seq<Txn>, folder: FolderId, i: nat)
    requires RowOf(s, folder).lease.version == RowOf(Run(s, txns), folder).lease.version
    requires i < |Committed(s, txns)| && Committed(s, txns)[i].folder == folder
    ensures var t := Committed(s, txns)[i];
            !t.Grab? && t.version == RowOf(s, folder).lease.version
  {
    hide ApplyAll;
    var n := |txns| - 1;
    LeaseVersionsGrow(s, txns[..n], folder);
    if i < |Committed(s, txns[..n])| {
      OnlyTheHolderWrites(s, txns[..n], folder, i);
    }
  }

  /** The pages that the run holding this lease version committed. */
  function PagesUnder(log: seq<Txn>, folder: FolderId, version: nat): seq<Page> {
    if log == [] then []
    else
      var last := log[|log| - 1];
      var before := PagesUnder(log[..|log| - 1], folder, version);
      if last.CommitPage? && last.folder == folder && last.version == version then before + [last.page] else before
  }

  lemma PagesUnderAppend(log: seq<Txn>, t: Txn, folder: FolderId, version: nat)
    ensures PagesUnder(log + [t], folder, version)
            == if t.CommitPage? && t.folder == folder && t.version == version
               then PagesUnder(log, folder, version) + [t.page] else PagesUnder(log, folder, version)
  {
    assert (log + [t])[..|log|] == log;
  }

  lemma {:induction false} NothingCommittedUnderAVersionNotYetGranted(s: Sys, txns: seq<Txn>, folder: FolderId,
      version: nat)
    requires RowOf(Run(s, txns), folder).lease.version < version
    ensures PagesUnder(Committed(s, txns), folder, version) == []
  {
    hide ApplyAll;
    if txns != [] {
      var n := |txns| - 1;
      LeaseVersionsGrow(Run(s, txns[..n]), [txns[n]], folder);
      assert Run(Run(s, txns[..n]), [txns[n]]) == Run(s, txns) by {
        assert [txns[n]] == [] + [txns[n]];
        RunAppend(Run(s, txns[..n]), [], txns[n]);
      }
      NothingCommittedUnderAVersionNotYetGranted(s, txns[..n], folder, version);
      if Effective(Run(s, txns[..n]), txns[n]) {
        PagesUnderAppend(Committed(s, txns[..n]), txns[n], folder, version);
        assert Committed(s, txns) == Committed(s, txns[..n]) + [txns[n]];
        assert txns[n].CommitPage? ==> txns[n].version == RowOf(Run(s, txns[..n]), txns[n].folder).lease.version;
      }
    }
  }

  // --- generations ----------------------------------------------------------------------

  /** No membership is stamped beyond its folder's current generation. */
  ghost predicate StampsBounded(s: Sys) {
    forall k :: k in s.db.memberships ==> s.db.memberships[k] <= RowOf(s, k.0).payload.generation
  }

  /** An effective page stamps with the row's generation and an effective restart goes one above it. */
  ghost predicate UsesRowGeneration(s: Sys, t: Txn) {
    Effective(s, t) ==>
    && (t.CommitPage? ==> t.generation == RowOf(s, t.folder).payload.generation)
    && (t.Restart? ==> t.generation == RowOf(s, t.folder).payload.generation + 1)
  }

  lemma {:induction false} ChangesStampOnlyTheirGeneration(db: Db, cs: seq<Change>, folder: FolderId, g: nat,
      k: (FolderId, MessageId))
    requires forall i :: 0 <= i < |cs| ==> cs[i].folder == folder && (cs[i].Deliver? ==> cs[i].generation == g)
    requires k in ApplyAll(db, cs).memberships
    ensures (k in db.memberships && ApplyAll(db, cs).memberships[k] == db.memberships[k])
            || (k.0 == folder && ApplyAll(db, cs).memberships[k] == g)
  {
    hide PatchFields, PatchBags;
    if cs != [] {
      var n := |cs| - 1;
      var mid := ApplyAll(db, cs[..n]);
      if k in mid.memberships {
        ChangesStampOnlyTheirGeneration(db, cs[..n], folder, g, k);
      }
    }
  }

  lemma StepKeepsStampsBounded(s: Sys, t: Txn)
    requires StampsBounded(s) && UsesRowGeneration(s, t)
    ensures StampsBounded(Step(s, t))
  {
    hide ApplyAll, ApplyChange;
    if Effective(s, t) {
      var after := Step(s, t);
      forall k | k in after.db.memberships
        ensures after.db.memberships[k] <= RowOf(after, k.0).payload.generation
      {
        if t.CommitPage? {
          ChangesStampOnlyTheirGeneration(s.db, Delta(t), t.folder, t.generation, k);
        } else {
          NoChanges(s.db);
        }
      }
    }
  }

  lemma NoChanges(db: Db)
    ensures ApplyAll(db, []) == db
  {
  }

  // --- why the read has to come under the lease ------------------------------------------

  /** A resync in one go: lease, restart, one final page, clean-up of whatever is stale. */
  function ResyncUpToThePage(worker: Worker, version: nat, g: nat, page: Page): seq<Txn> {
    [Grab(0, worker, 0, 1)] + [Restart(0, worker, version, 0, g)]
    + [CommitPage(0, worker, version, 0, 1, g, page, true, [])]
  }

  lemma ThreeSteps(s: Sys, a: Txn, b: Txn, c: Txn)
    ensures var txns := [a] + [b] + [c];
            && Run(s, txns[..1]) == Step(s, a) && Run(s, txns[..2]) == Step(Step(s, a), b)
            && Run(s, txns) == Step(Step(Step(s, a), b), c)
  {
    hide Step;
    var txns := [a] + [b] + [c];
    assert txns[..1] == [] + [a] && txns[..2] == [a] + [b] && [a] == [] + [a];
    RunAppend(s, [], a);
    RunAppend(s, [a], b);
    RunAppend(s, [a] + [b], c);
  }

  lemma GrabTakesTheRow(s: Sys, t: Txn)
    requires t.Grab? && t.folder == 0 && RowOf(s, 0).lease.lockedBy.None?
    ensures Step(s, t).db == s.db && RowOf(Step(s, t), 0).lease.lockedBy == Some(t.worker)
    ensures RowOf(Step(s, t), 0).lease.version == RowOf(s, 0).lease.version + 1
  {
    NoChanges(s.db);
  }

  lemma RestartKeepsTheRow(s: Sys, t: Txn)
    requires t.Restart? && t.folder == 0
    requires RowOf(s, 0).lease.lockedBy == Some(t.worker) && RowOf(s, 0).lease.version == t.version
    ensures Effective(s, t) && Step(s, t).db == s.db && RowOf(Step(s, t), 0).lease == RowOf(s, 0).lease
  {
    NoChanges(s.db);
  }

  lemma PageIsApplied(s: Sys, t: Txn)
    requires t.CommitPage? && t.folder == 0 && t.cleanup && t.order == []
    requires RowOf(s, 0).lease.lockedBy == Some(t.worker) && RowOf(s, 0).lease.version == t.version
    requires Stale(ApplyAll(s.db, PageChanges(0, t.generation, t.page)), 0, t.generation) == {}
    ensures Effective(s, t) && Step(s, t).db == ApplyAll(s.db, PageChanges(0, t.generation, t.page))
    ensures RowOf(Step(s, t), 0).lease.lockedBy == Some(t.worker) && RowOf(Step(s, t), 0).lease.version == t.version
  {
    hide ApplyAll, PageChanges, Stale;
    assert Reconciliations(0, []) == [];
    assert Delta(t) == PageChanges(0, t.generation, t.page) + [];
    assert Delta(t) == PageChanges(0, t.generation, t.page);
  }

  lemma OneResync(s: Sys, worker: Worker, g: nat, page: Page)
    requires RowOf(s, 0).lease.lockedBy.None?
    requires Stale(ApplyAll(s.db, PageChanges(0, g, page)), 0, g) == {}
    ensures var version := RowOf(s, 0).lease.version + 1;
            var txns := ResyncUpToThePage(worker, version, g, page);
            var now, last := Run(s, txns), txns[2];
            && RowOf(now, 0).lease.lockedBy == Some(worker) && RowOf(now, 0).lease.version == version
            && now.db == ApplyAll(s.db, PageChanges(0, g, page))
            && txns[1].Restart? && Effective(Run(s, txns[..1]), txns[1]) && Effective(Run(s, txns[..2]), last)
  {
    hide ApplyAll, PageChanges, Stale, Step, Effective, RowOf, Run;
    var version := RowOf(s, 0).lease.version + 1;
    var txns := ResyncUpToThePage(worker, version, g, page);
    ThreeSteps(s, txns[0], txns[1], txns[2]);
    GrabTakesTheRow(s, txns[0]);
    RestartKeepsTheRow(Step(s, txns[0]), txns[1]);
    PageIsApplied(Step(Step(s, txns[0]), txns[1]), txns[2]);
  }

  /** One run restarts and finishes while another, which read the generation before, waits for the lease;
      then the other restarts from what it read and finishes with an empty folder. */
  function StaleReadRun(first: Worker, second: Worker, id: MessageId): seq<Txn> {
    ResyncUpToThePage(first, 2, 2, Page([ProviderMessage(id, NO_PATCH)], [], None, false, true))
    + [Release(0, first, 2, 0)]
    + ResyncUpToThePage(second, 3, 2, Page([], [], None, false, true))
  }

  /** Why the generation has to be read under the lease: here the second run restarts one above the
      generation 1 that both runs could read at the start, its resync takes effect and cleans up, and
      still the folder holds a message that was not delivered since that restart. */
  lemma AStaleReadMakesAResyncInexact(first: Worker, second: Worker, id: MessageId)
    ensures var start, txns := Sys(map[], EMPTY_DB), StaleReadRun(first, second, id);
            var restart, last := txns[5], txns[6];
            && |txns| == 7
            && restart.Restart? && restart.generation == RowOf(start, 0).payload.generation + 1
            && Effective(Run(start, txns[..5]), restart)
            && last.CommitPage? && last.cleanup && Final(last.page) && last.version == restart.version
            && last.generation == restart.generation
            && Effective(Run(start, txns[..6]), last)
            && !HoldsExactlyDelivered(Run(start, txns).db,
                                      Deltas(Committed(Run(start, txns[..6]), txns[6..6]))
                                      + PageChanges(0, last.generation, last.page), 0, last.generation)
  {
    hide ApplyAll, PageChanges, Run, Committed, Deltas, HoldsExactlyDelivered, Effective, Stale, Step;
    var start, txns := Sys(map[], EMPTY_DB), StaleReadRun(first, second, id);
    var page, empty := Page([ProviderMessage(id, NO_PATCH)], [], None, false, true), Page([], [], None, false, true);
    var a, b := ResyncUpToThePage(first, 2, 2, page), ResyncUpToThePage(second, 3, 2, empty);
    var d := Release(0, first, 2, 0);
    DeliveryStamps(id, page);
    OneResync(start, first, 2, page);
    var s1 := Run(start, a);
    RunAppend(start, a, d);
    var s2 := Run(start, a + [d]);
    ReleaseFreesTheRow(s1, d);
    NothingDelivered(s2.db, empty);
    OneResync(s2, second, 2, empty);
    assert txns == (a + [d]) + b && b == b[..3];
    RunSplit(start, a + [d], b);
    assert txns[..5] == (a + [d]) + b[..1] && txns[..6] == (a + [d]) + b[..2];
    RunSplit(start, a + [d], b[..1]);
    RunSplit(start, a + [d], b[..2]);
    assert txns[5] == b[1] && txns[6] == b[2] && txns[6..6] == [];
    NothingCommitted(Run(start, txns[..6]));
    LeftBehind(Run(start, txns).db, id, PageChanges(0, 2, empty));
  }

  lemma ReleaseFreesTheRow(s: Sys, t: Txn)
    requires t.Release? && t.folder == 0 && RowOf(s, 0).lease.lockedBy == Some(t.worker)
    requires RowOf(s, 0).lease.version == t.version
    ensures var now := Step(s, t);
            now.db == s.db && RowOf(now, 0).lease == Lease(None, None, t.version)
  {
    NoChanges(s.db);
  }

  lemma NothingCommitted(s: Sys)
    ensures Deltas(Committed(s, [])) == []
  {
  }

  lemma NothingDelivered(db: Db, page: Page)
    requires page.messages == [] && page.removals == []
    ensures PageChanges(0, 2, page) == [] && ApplyAll(db, PageChanges(0, 2, page)) == db
  {
    assert PageChanges(0, 2, page) == [];
  }

  lemma LeftBehind(db: Db, id: MessageId, cs: seq<Change>)
    requires (0, id) in db.memberships && cs == []
    ensures !HoldsExactlyDelivered(db, [] + cs, 0, 2)
  {
    assert [] + cs == [];
    assert FateOf([], 0, id) == Untouched;
  }

  lemma DeliveryStamps(id: MessageId, page: Page)
    requires page == Page([ProviderMessage(id, NO_PATCH)], [], None, false, true)
    ensures var after := ApplyAll(EMPTY_DB, PageChanges(0, 2, page));
            && after.memberships == map[(0, id) := 2]
            && Stale(after, 0, 2) == {}
  {
    hide PatchFields, PatchBags;
    var cs := PageChanges(0, 2, page);
    assert cs == [Deliver(0, 2, page.messages[0])];
    assert cs[..0] == [];
  }

  // --- resync over an interleaving ------------------------------------------------------

  lemma {:induction false} HolderStamps(log: seq<Txn>, folder: FolderId, g: nat)
    requires forall i :: 0 <= i < |log| && log[i].CommitPage? && log[i].folder == folder ==> log[i].generation == g
    ensures StampsWith(Deltas(log), folder, g)
  {
    if log != [] {
      HolderStamps(log[..|log| - 1], folder, g);
    }
  }

  /** Resync exactness through any interference: a run restarts a folder at generation g, and when it
      commits its final page it still holds the same lease version. Whatever other runs did meanwhile,
      the folder then holds exactly what was delivered since the restart and not removed later. */
  lemma ResyncIsExactUnderInterference(s: Sys, txns: seq<Txn>, last: Txn)
    requires last.CommitPage? && Valid(s.db) && OlderThan(s.db, last.folder, last.generation)
    requires last.cleanup && Effective(Run(s, txns), last)
    requires RowOf(s, last.folder).lease.version == last.version
    requires forall i :: 0 <= i < |Committed(s, txns)| ==>
               var t := Committed(s, txns)[i];
               t.CommitPage? && t.folder == last.folder && t.version == last.version ==> t.generation == last.generation
    ensures var cs := Deltas(Committed(s, txns)) + PageChanges(last.folder, last.generation, last.page);
            HoldsExactlyDelivered(Step(Run(s, txns), last).db, cs, last.folder, last.generation)
  {
    hide ApplyAll, ApplyChange, Valid, HoldsExactlyDelivered, OlderThan, FateOf;
    var folder, g := last.folder, last.generation;
    var log, page := Committed(s, txns), PageChanges(folder, g, last.page);
    forall i | 0 <= i < |log| && log[i].CommitPage? && log[i].folder == folder ensures log[i].generation == g {
      OnlyTheHolderWrites(s, txns, folder, i);
    }
    HolderStamps(log, folder, g);
    var cs := Deltas(log) + page;
    assert StampsWith(cs, folder, g);
    TablesAreTheFold(s, txns);
    ApplyAllAppends(s.db, Deltas(log), page);
    ApplyAllAppends(Run(s, txns).db, page, Reconciliations(folder, last.order));
    ResyncIsExact(s.db, cs, folder, g, last.order);
  }

  /** A run that holds the lease in this state goes on at this generation, and its final page takes effect. */
  ghost predicate EndsResync(s: Sys, txns: seq<Txn>, last: Txn, folder: FolderId, g: nat) {
    && last.CommitPage? && last.folder == folder && last.generation == g
    && Final(last.page) && last.cleanup && Effective(Run(s, txns), last)
    && RowOf(s, folder).lease.version == last.version
    && forall i :: 0 <= i < |Committed(s, txns)| ==>
         var t := Committed(s, txns)[i];
         t.CommitPage? && t.folder == folder && t.version == last.version ==> t.generation == g
  }

  ghost predicate EndsExact(s: Sys, txns: seq<Txn>, last: Txn, folder: FolderId, g: nat) {
    && last.CommitPage?
    && HoldsExactlyDelivered(Step(Run(s, txns), last).db,
                             Deltas(Committed(s, txns)) + PageChanges(folder, g, last.page), folder, g)
  }

  /** Whether a resync will be exact is decided when it restarts: every way in which the run and the others
      can go on from there ends exact if and only if the folder's stamps are older than its generation. */
  lemma EveryContinuationEndsExactIff(s: Sys, folder: FolderId, worker: Worker, g: nat)
    requires Valid(s.db) && RowOf(s, folder).lease.lockedBy == Some(worker)
    ensures (forall txns, last :: EndsResync(s, txns, last, folder, g) ==> EndsExact(s, txns, last, folder, g))
            <==> OlderThan(s.db, folder, g)
  {
    hide EndsResync, EndsExact, OlderThan, Valid, RowOf;
    if OlderThan(s.db, folder, g) {
      forall txns, last | EndsResync(s, txns, last, folder, g) ensures EndsExact(s, txns, last, folder, g) {
        ContinuationEndsExact(s, txns, last, folder, g);
      }
    } else {
      var last := OnlyCleanUp(s, folder, worker, g);
      CleanUpTakesEffect(s, folder, worker, g);
      CleanUpEndsInexact(s, folder, worker, g);
      assert EndsResync(s, [], last, folder, g);
    }
  }

  lemma ContinuationEndsExact(s: Sys, txns: seq<Txn>, last: Txn, folder: FolderId, g: nat)
    requires EndsResync(s, txns, last, folder, g) && Valid(s.db) && OlderThan(s.db, folder, g)
    ensures EndsExact(s, txns, last, folder, g)
  {
    hide OlderThan, Valid, RowOf, Effective, Step, HoldsExactlyDelivered, Deltas, Final;
    ResyncIsExactUnderInterference(s, txns, last);
  }

  /** A final page with nothing on it. */
  ghost function OnlyCleanUp(s: Sys, folder: FolderId, worker: Worker, g: nat): Txn {
    CommitPage(folder, worker, RowOf(s, folder).lease.version, 0, 0, g, Page([], [], None, false, true), true,
               Enumeration(Stale(s.db, folder, g)))
  }

  lemma CleanUpTakesEffect(s: Sys, folder: FolderId, worker: Worker, g: nat)
    requires RowOf(s, folder).lease.lockedBy == Some(worker)
    ensures var last := OnlyCleanUp(s, folder, worker, g);
            && EndsResync(s, [], last, folder, g)
            && Step(s, last).db == ApplyAll(s.db, Reconciliations(folder, last.order))
  {
    hide ApplyAll, Stale, RowOf, Reconciliations, Enumerates;
    var last := OnlyCleanUp(s, folder, worker, g);
    assert PageChanges(folder, g, last.page) == [];
    NoChanges(s.db);
    assert Delta(last) == [] + Reconciliations(folder, last.order) == Reconciliations(folder, last.order);
  }

  lemma CleanUpEndsInexact(s: Sys, folder: FolderId, worker: Worker, g: nat)
    requires Valid(s.db) && RowOf(s, folder).lease.lockedBy == Some(worker) && !OlderThan(s.db, folder, g)
    ensures !EndsExact(s, [], OnlyCleanUp(s, folder, worker, g), folder, g)
  {
    var last := OnlyCleanUp(s, folder, worker, g);
    CleanUpTakesEffect(s, folder, worker, g);
    ReconciliationIsExact(s.db, folder, g, last.order);
    hide Valid, ApplyAll, Stale, RowOf, Step, EndsResync, Reconciliations;
    var k :| k in s.db.memberships && k.0 == folder && g <= s.db.memberships[k];
    assert k == (folder, k.1);
    assert Deltas(Committed(s, [])) + PageChanges(folder, g, last.page) == [];
    assert FateOf([], folder, k.1) == Untouched;
  }
}
