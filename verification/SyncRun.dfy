/** What one folder-sync run keeps true of the interleaving it takes part in. */
module SyncRun {
  import opened Leases
  import opened MailData
  import opened MessageProcessing
  import opened SyncSystem
  import opened SyncGenerations

  /** A run in progress: the lease it was granted, the pages it committed, how many changes they made and
      how many of these were removals, the generation it stamps with, whether what it had read was the
      row's generation when the lease was granted, and where in the interleaving its last restart took
      effect and its lease was granted. */
  datatype View = View(folder: FolderId, worker: Worker, version: nat, committed: seq<Page>,
                       mutated: int, removed: int, generation: nat, timely: bool, resync: bool, restartAt: nat,
                       grantedAt: nat)

  /** Other runs never hold this run's lease version (SyncGenerations.VersionsNameTheirRun). */
  predicate Foreign(t: Txn, folder: FolderId, version: nat) {
    t.folder == folder && !t.Grab? ==> t.version != version
  }

  // --- what the pages of a run changed ---------------------------------------------------

  /** How many changes a page makes to these tables, and how many of them are removals: each has its event. */
  function ChangesOf(db: Db, t: Txn): int
    requires t.CommitPage?
  {
    |ApplyAll(db, PageChanges(t.folder, t.generation, t.page)).events| - |db.events|
  }

  function RemovalsOf(db: Db, t: Txn): int
    requires t.CommitPage?
  {
    |ApplyAll(db, PageChanges(t.folder, t.generation, t.page)).events|
    - |ApplyAll(db, Deliveries(t.folder, t.generation, t.page.messages)).events|
  }

  predicate OwnPage(t: Txn, folder: FolderId, version: nat) {
    t.CommitPage? && t.folder == folder && t.version == version
  }

  function ChangesUnder(db: Db, log: seq<Txn>, folder: FolderId, version: nat): int {
    if log == [] then 0
    else
      var front, last := log[..|log| - 1], log[|log| - 1];
      ChangesUnder(db, front, folder, version)
      + (if OwnPage(last, folder, version) then ChangesOf(ApplyAll(db, Deltas(front)), last) else 0)
  }

  function RemovalsUnder(db: Db, log: seq<Txn>, folder: FolderId, version: nat): int {
    if log == [] then 0
    else
      var front, last := log[..|log| - 1], log[|log| - 1];
      RemovalsUnder(db, front, folder, version)
      + (if OwnPage(last, folder, version) then RemovalsOf(ApplyAll(db, Deltas(front)), last) else 0)
  }

  /** The pages that the run committed, and what they changed. */
  ghost predicate Tallied(initial: Sys, trace: seq<Txn>, folder: FolderId, version: nat, pages: seq<Page>,
      mutated: int, removed: int) {
    var log := Committed(initial, trace);
    && PagesUnder(log, folder, version) == pages
    && ChangesUnder(initial.db, log, folder, version) == mutated
    && RemovalsUnder(initial.db, log, folder, version) == removed
  }

  lemma TallyNamesPages(initial: Sys, trace: seq<Txn>, folder: FolderId, version: nat, pages: seq<Page>, mutated: int,
        removed: int)
    requires Tallied(initial, trace, folder, version, pages, mutated, removed)
    ensures PagesUnder(Committed(initial, trace), folder, version) == pages
  {
  }

  lemma ChangesAppend(db: Db, log: seq<Txn>, t: Txn, folder: FolderId, version: nat)
    ensures ChangesUnder(db, log + [t], folder, version)
            == ChangesUnder(db, log, folder, version)
               + (if OwnPage(t, folder, version) then ChangesOf(ApplyAll(db, Deltas(log)), t) else 0)
    ensures RemovalsUnder(db, log + [t], folder, version)
            == RemovalsUnder(db, log, folder, version)
               + (if OwnPage(t, folder, version) then RemovalsOf(ApplyAll(db, Deltas(log)), t) else 0)
  {
    hide ChangesOf, RemovalsOf, ApplyAll, Deltas;
    assert (log + [t])[..|log|] == log;
  }

  lemma TallyAppend(initial: Sys, trace: seq<Txn>, t: Txn, folder: FolderId, version: nat, pages: seq<Page>,
        mutated: int, removed: int)
    requires Tallied(initial, trace, folder, version, pages, mutated, removed)
    ensures var s := Run(initial, trace);
            if Effective(s, t) && OwnPage(t, folder, version) then
              Tallied(initial, trace + [t], folder, version, pages + [t.page], mutated + ChangesOf(s.db, t),
                      removed + RemovalsOf(s.db, t))
            else Tallied(initial, trace + [t], folder, version, pages, mutated, removed)
  {
    hide Effective, ChangesOf, RemovalsOf, Step, ApplyAll, Deltas, Run, Committed, PagesUnder, ChangesUnder,
         RemovalsUnder;
    RunAppend(initial, trace, t);
    TablesAreTheFold(initial, trace);
    PagesUnderAppend(Committed(initial, trace), t, folder, version);
    ChangesAppend(initial.db, Committed(initial, trace), t, folder, version);
  }

  lemma {:induction false} NoPagesNoChanges(db: Db, log: seq<Txn>, folder: FolderId, version: nat)
    requires PagesUnder(log, folder, version) == []
    ensures ChangesUnder(db, log, folder, version) == RemovalsUnder(db, log, folder, version) == 0
  {
    if log != [] {
      NoPagesNoChanges(db, log[..|log| - 1], folder, version);
    }
  }

  // --- the run's invariant --------------------------------------------------------------

  ghost predicate StillHeld(s: Sys, v: View) {
    RowOf(s, v.folder).lease.version == v.version
  }

  ghost predicate LeaseInv(s: Sys, v: View) {
    && RowOf(s, v.folder).lease.version >= v.version
    && (StillHeld(s, v) ==>
          RowOf(s, v.folder).lease.lockedBy == Some(v.worker)
          && (v.timely ==> RowOf(s, v.folder).payload.generation == v.generation))
  }

  predicate StampsOwnPagesWith(log: seq<Txn>, v: View) {
    forall i :: 0 <= i < |log| && log[i].CommitPage? && log[i].folder == v.folder && log[i].version == v.version
                ==> log[i].generation == v.generation
  }

  /** The last transaction before restartAt is the run's own restart, issued under its lease if that
      was still held. */
  ghost predicate RestartedItself(initial: Sys, trace: seq<Txn>, v: View)
    requires v.restartAt <= |trace|
  {
    && v.restartAt > 0
    && var t, before := trace[v.restartAt - 1], RowOf(Run(initial, trace[..v.restartAt - 1]), v.folder);
       && t.Restart? && t.folder == v.folder && t.worker == v.worker && t.version == v.version
       && t.generation == v.generation
       && before.lease.version >= v.version
       && (before.lease.version == v.version ==> before.lease.lockedBy == Some(v.worker))
  }

  ghost predicate SinceRestart(initial: Sys, trace: seq<Txn>, v: View)
    requires v.restartAt <= |trace|
  {
    var restarted := Run(initial, trace[..v.restartAt]);
    && RestartedItself(initial, trace, v)
    && RowOf(restarted, v.folder).lease.version >= v.version
    && StampsOwnPagesWith(Committed(restarted, trace[v.restartAt..]), v)
  }

  predicate IssuedUnder(t: Txn, folder: FolderId, version: nat) {
    t.folder == folder && !t.Grab? && t.version == version
  }

  /** Every page and restart issued under the lease since it was granted follows the protocol. */
  ghost predicate OwnTimely(initial: Sys, trace: seq<Txn>, grantedAt: nat, folder: FolderId, version: nat) {
    forall i :: grantedAt < i < |trace| && IssuedUnder(trace[i], folder, version) ==> Timely(initial, trace, i)
  }

  /** The run restarted between its grant and position n. */
  ghost predicate Restarted(trace: seq<Txn>, grantedAt: nat, n: nat, folder: FolderId, version: nat)
    requires grantedAt <= n <= |trace|
  {
    OwnRestarts(trace[grantedAt..n], folder, version) > 0
  }

  /** A page of the run cleans the folder up exactly if the run restarted before it and no page follows it. */
  ghost predicate CleansUp(trace: seq<Txn>, grantedAt: nat, folder: FolderId, version: nat) {
    forall i :: grantedAt < i < |trace| && trace[i].CommitPage? && IssuedUnder(trace[i], folder, version) ==>
      (trace[i].cleanup <==>
         Restarted(trace, grantedAt, i, folder, version) && (trace[i].page.checkpoint || !trace[i].page.hasMore))
  }

  /** What a run issues from its grant on, and with which generation if it was not overtaken. */
  ghost predicate KeepsProtocol(initial: Sys, trace: seq<Txn>, timely: bool, grantedAt: nat, folder: FolderId,
      version: nat) {
    && CleansUp(trace, grantedAt, folder, version)
    && (timely ==> OwnTimely(initial, trace, grantedAt, folder, version))
  }

  /** A run that was not overtaken counts its generations as the protocol says. */
  ghost predicate Accounted(initial: Sys, trace: seq<Txn>, v: View) {
    && v.grantedAt < |trace|
    && CleansUp(trace, v.grantedAt, v.folder, v.version)
    && (v.resync <==> Restarted(trace, v.grantedAt, |trace|, v.folder, v.version))
    && GrantedAt(initial, trace, v.grantedAt, v.folder, v.worker, v.version)
    && (v.timely ==>
          && v.generation == GenerationAt(initial, trace, v.grantedAt, v.folder)
                             + OwnRestarts(trace[v.grantedAt..], v.folder, v.version)
          && OwnTimely(initial, trace, v.grantedAt, v.folder, v.version))
  }

  ghost predicate Inv(initial: Sys, trace: seq<Txn>, v: View) {
    && Accounted(initial, trace, v)
    && LeaseInv(Run(initial, trace), v)
    && Tallied(initial, trace, v.folder, v.version, v.committed, v.mutated, v.removed)
    && (v.resync ==> v.restartAt <= |trace| && SinceRestart(initial, trace, v))
  }

  /** What any one transaction may do to the lease of a run that issues only what the view allows. */
  lemma LeaseAfterStep(s: Sys, t: Txn, v: View)
    requires LeaseInv(s, v)
    requires Foreign(t, v.folder, v.version) || t.Renew? || t.CommitPage?
    ensures LeaseInv(Step(s, t), v)
  {
    hide ApplyAll, Delta, Possible;
  }

  lemma TimelyStays(initial: Sys, trace: seq<Txn>, more: seq<Txn>, i: nat)
    requires i < |trace| && trace <= more && Timely(initial, trace, i)
    ensures Timely(initial, more, i)
  {
    if trace[i].CommitPage? || trace[i].Restart? {
      var j :| 0 <= j < i && FollowsGrant(initial, trace, i, j);
      assert more[..j] == trace[..j] && more[..j + 1] == trace[..j + 1] && more[j..i] == trace[j..i];
      assert FollowsGrant(initial, more, i, j);
    }
  }

  predicate CleansUpFor(t: Txn, v: View)
    requires t.CommitPage?
  {
    t.cleanup <==> v.resync && (t.page.checkpoint || !t.page.hasMore)
  }

  /** What the run's own next transaction carries, if it is a page or a restart. */
  predicate Carries(t: Txn, v: View) {
    t.folder == v.folder && !t.Grab? && t.version == v.version ==>
      && (t.CommitPage? ==>
            t.worker == v.worker && t.generation == v.generation && CleansUpFor(t, v))
      && (t.Restart? ==> t.worker == v.worker && t.generation == v.generation + 1)
  }

  /** A restart moves the run to the next generation. */
  function GenerationAfter(t: Txn, v: View): nat {
    if OwnRestart(t, v.folder, v.version) then v.generation + 1 else v.generation
  }

  lemma AccountedAppend(initial: Sys, trace: seq<Txn>, t: Txn, v: View, w: View)
    requires Accounted(initial, trace, v) && Carries(t, v)
    requires w.folder == v.folder && w.worker == v.worker && w.version == v.version
    requires w.timely == v.timely && w.grantedAt == v.grantedAt && w.generation == GenerationAfter(t, v)
    requires w.resync == (v.resync || OwnRestart(t, v.folder, v.version))
    ensures Accounted(initial, trace + [t], w)
  {
    hide Run, Effective, RowOf, Timely;
    var now, n, j := trace + [t], |trace|, v.grantedAt;
    assert now[..j] == trace[..j] && now[..j + 1] == trace[..j + 1];
    assert now[j..n] == trace[j..] == trace[j..n] && now[j..] == now[j..n + 1];
    OwnRestartsAppend(now, j, n, v.folder, v.version);
    CleansUpAppend(trace, t, v);
    if v.timely {
      forall i | j < i < |now| && now[i].folder == v.folder && !now[i].Grab? && now[i].version == v.version
        ensures Timely(initial, now, i)
      {
        if i < n {
          TimelyStays(initial, trace, now, i);
        } else {
          OwnIsTimely(initial, now, n, j);
        }
      }
    }
  }

  lemma CleansUpAppend(trace: seq<Txn>, t: Txn, v: View)
    requires v.grantedAt < |trace| && CleansUp(trace, v.grantedAt, v.folder, v.version) && Carries(t, v)
    requires v.resync <==> Restarted(trace, v.grantedAt, |trace|, v.folder, v.version)
    ensures CleansUp(trace + [t], v.grantedAt, v.folder, v.version)
  {
    var now, j := trace + [t], v.grantedAt;
    forall i | j < i < |now| && now[i].CommitPage? && IssuedUnder(now[i], v.folder, v.version)
      ensures now[i].cleanup <==>
                Restarted(now, j, i, v.folder, v.version) && (now[i].page.checkpoint || !now[i].page.hasMore)
    {
      assert now[j..i] == trace[j..i];
      if i == |trace| {
        assert trace[j..i] == trace[j..];
      }
    }
  }

  lemma OwnIsTimely(initial: Sys, txns: seq<Txn>, i: nat, j: nat)
    requires i < |txns| && (txns[i].CommitPage? || txns[i].Restart? ==> FollowsGrant(initial, txns, i, j))
    ensures Timely(initial, txns, i)
  {
  }

  lemma RestartedItselfStays(initial: Sys, trace: seq<Txn>, t: Txn, v: View)
    requires v.restartAt <= |trace| && RestartedItself(initial, trace, v)
    ensures RestartedItself(initial, trace + [t], v)
  {
    hide RowOf, Run;
    assert (trace + [t])[..v.restartAt - 1] == trace[..v.restartAt - 1];
  }

  lemma SinceRestartAppend(initial: Sys, trace: seq<Txn>, t: Txn, v: View)
    requires v.restartAt <= |trace| && SinceRestart(initial, trace, v)
    requires t.CommitPage? && t.folder == v.folder && t.version == v.version ==> t.generation == v.generation
    ensures SinceRestart(initial, trace + [t], v)
  {
    hide Step, Effective, RowOf, Run, Committed, RestartedItself;
    var rest := trace[v.restartAt..];
    RestartedItselfStays(initial, trace, t, v);
    assert (trace + [t])[..v.restartAt] == trace[..v.restartAt];
    assert (trace + [t])[v.restartAt..] == rest + [t];
    RunAppend(Run(initial, trace[..v.restartAt]), rest, t);
  }

  /** Other runs, and this run's own renewals, leave everything in place. */
  lemma ForeignStepKeepsInv(initial: Sys, trace: seq<Txn>, t: Txn, v: View)
    requires Inv(initial, trace, v)
    requires Foreign(t, v.folder, v.version) || t.Renew?
    ensures Inv(initial, trace + [t], v)
  {
    hide Step, Effective, LeaseInv, SinceRestart, Accounted, Tallied, ChangesOf, RemovalsOf;
    RunAppend(initial, trace, t);
    LeaseAfterStep(Run(initial, trace), t, v);
    AccountedAppend(initial, trace, t, v, v);
    TallyAppend(initial, trace, t, v.folder, v.version, v.committed, v.mutated, v.removed);
    if v.resync {
      SinceRestartAppend(initial, trace, t, v);
    }
  }

  lemma {:induction false} ForeignRunKeepsInv(initial: Sys, before: seq<Txn>, after: seq<Txn>, v: View)
    requires Inv(initial, before, v) && before <= after
    requires forall i :: |before| <= i < |after| ==> Foreign(after[i], v.folder, v.version)
    ensures Inv(initial, after, v)
    decreases |after|
  {
    hide Inv;
    if |before| == |after| {
      assert before == after;
    } else {
      var n := |after| - 1;
      ForeignRunKeepsInv(initial, before, after[..n], v);
      ForeignStepKeepsInv(initial, after[..n], after[n], v);
      assert after == after[..n] + [after[n]];
    }
  }

  /** The view of a run that issued this page. */
  ghost function AfterPage(initial: Sys, trace: seq<Txn>, t: Txn, v: View): View
    requires t.CommitPage?
  {
    var s := Run(initial, trace);
    if Effective(s, t)
    then v.(committed := v.committed + [t.page], mutated := v.mutated + ChangesOf(s.db, t),
            removed := v.removed + RemovalsOf(s.db, t))
    else v
  }

  /** Committing a page appends it exactly when the lease was still held. */
  lemma CommitKeepsInv(initial: Sys, trace: seq<Txn>, t: Txn, v: View)
    requires Inv(initial, trace, v)
    requires t.CommitPage? && t.folder == v.folder && t.worker == v.worker
    requires t.version == v.version && t.generation == v.generation && CleansUpFor(t, v)
    ensures Inv(initial, trace + [t], AfterPage(initial, trace, t, v))
  {
    hide Step, Effective, LeaseInv, SinceRestart, Accounted, Tallied, ChangesOf, RemovalsOf;
    RunAppend(initial, trace, t);
    var after := AfterPage(initial, trace, t, v);
    LeaseAfterStep(Run(initial, trace), t, v);
    LeaseInvIgnoresPages(Step(Run(initial, trace), t), v, after);
    AccountedAppend(initial, trace, t, v, after);
    TallyAppend(initial, trace, t, v.folder, v.version, v.committed, v.mutated, v.removed);
    if v.resync {
      SinceRestartAppend(initial, trace, t, v);
      SinceRestartIgnoresPages(initial, trace + [t], v, after);
    }
  }

  lemma LeaseInvIgnoresPages(s: Sys, v: View, w: View)
    requires LeaseInv(s, v) && w == v.(committed := w.committed, mutated := w.mutated, removed := w.removed)
    ensures LeaseInv(s, w)
  {
  }

  lemma SinceRestartIgnoresPages(initial: Sys, trace: seq<Txn>, v: View, w: View)
    requires w == v.(committed := w.committed, mutated := w.mutated, removed := w.removed)
    requires v.restartAt <= |trace| && SinceRestart(initial, trace, v)
    ensures SinceRestart(initial, trace, w)
  {
  }

  /** A restart opens the next generation; a lost lease shows at the next check. */
  lemma RestartKeepsInv(initial: Sys, trace: seq<Txn>, t: Txn, v: View)
    requires Inv(initial, trace, v)
    requires t.Restart? && t.folder == v.folder && t.worker == v.worker && t.version == v.version
    requires t.generation == v.generation + 1
    ensures Inv(initial, trace + [t], v.(generation := t.generation, resync := true, restartAt := |trace| + 1))
  {
    hide LeaseInv, SinceRestart, Accounted, Step, Effective, Run, Committed, Tallied;
    var after := v.(generation := t.generation, resync := true, restartAt := |trace| + 1);
    RunAppend(initial, trace, t);
    AccountedAppend(initial, trace, t, v, after);
    LeaseAfterRestart(Run(initial, trace), t, v, after);
    RestartStartsOver(initial, trace, t, v, after);
    TallyAppend(initial, trace, t, v.folder, v.version, v.committed, v.mutated, v.removed);
  }

  lemma LeaseAfterRestart(s: Sys, t: Txn, v: View, w: View)
    requires LeaseInv(s, v) && t.Restart? && t.folder == v.folder && t.worker == v.worker && t.version == v.version
    requires t.generation == v.generation + 1
    requires w == v.(generation := t.generation, resync := true, restartAt := w.restartAt)
    ensures LeaseInv(Step(s, t), w)
  {
    hide ApplyAll, Delta;
  }

  lemma RestartStartsOver(initial: Sys, trace: seq<Txn>, t: Txn, v: View, w: View)
    requires LeaseInv(Run(initial, trace), v)
    requires t.Restart? && t.folder == v.folder && t.worker == v.worker && t.version == v.version
    requires w == v.(generation := t.generation, resync := true, restartAt := |trace| + 1)
    requires LeaseInv(Step(Run(initial, trace), t), w)
    ensures SinceRestart(initial, trace + [t], w)
  {
    hide Step, Effective;
    var now := trace + [t];
    RunAppend(initial, trace, t);
    assert now[..|trace|] == trace;
    assert now[..|trace| + 1] == now;
    assert now[|trace| + 1..] == [];
  }

  /** The page committed at position n left its folder holding exactly what was delivered since position
      restartAt and not removed later. */
  ghost predicate LeftExact(initial: Sys, trace: seq<Txn>, n: nat, folder: FolderId, restartAt: nat)
    requires restartAt <= n < |trace| && trace[n].CommitPage?
  {
    var restarted, last := Run(initial, trace[..restartAt]), trace[n];
    HoldsExactlyDelivered(Run(initial, trace[..n + 1]).db,
                          Deltas(Committed(restarted, trace[restartAt..n]))
                          + PageChanges(folder, last.generation, last.page),
                          folder, last.generation)
  }

  /** The page committed at position n of the interleaving ended a resync that restarted just before
      position restartAt, and left the folder exact if its stamps were older then. */
  ghost predicate ExactAt(initial: Sys, trace: seq<Txn>, n: nat, folder: FolderId, version: nat, restartAt: nat) {
    && 0 < restartAt <= n < |trace|
    && trace[n].CommitPage? && trace[n].folder == folder && trace[n].version == version
    && RestartTookEffect(initial, trace, restartAt, folder, trace[n].generation)
    && (OlderThan(Run(initial, trace[..restartAt]).db, folder, trace[n].generation) ==>
          LeftExact(initial, trace, n, folder, restartAt))
  }

  /** The transaction before restartAt opened the generation for this folder. */
  ghost predicate RestartTookEffect(initial: Sys, trace: seq<Txn>, restartAt: nat, folder: FolderId, generation: nat)
    requires 0 < restartAt <= |trace|
  {
    var t := trace[restartAt - 1];
    && t.Restart? && t.folder == folder && t.generation == generation
    && Effective(Run(initial, trace[..restartAt - 1]), t)
  }

  /** If the lease is still at the run's version now, it was when the run restarted. */
  lemma HeldRestartTookEffect(initial: Sys, trace: seq<Txn>, v: View)
    requires v.restartAt <= |trace|
    ensures RestartedItself(initial, trace, v) && RowOf(Run(initial, trace), v.folder).lease.version == v.version ==>
              v.restartAt > 0 && RestartTookEffect(initial, trace, v.restartAt, v.folder, v.generation)
  {
    hide ApplyAll, Delta;
    if RestartedItself(initial, trace, v) {
      var before, after := trace[..v.restartAt - 1], trace[v.restartAt - 1..];
      assert trace == before + after;
      RunSplit(initial, before, after);
      LeaseVersionsGrow(Run(initial, before), after, v.folder);
    }
  }

  lemma EffectStays(initial: Sys, trace: seq<Txn>, later: seq<Txn>, restartAt: nat, folder: FolderId, generation: nat)
    requires 0 < restartAt <= |trace| && trace <= later
    requires RestartTookEffect(initial, trace, restartAt, folder, generation)
    ensures RestartTookEffect(initial, later, restartAt, folder, generation)
  {
    hide Run, Effective;
    assert later[..restartAt - 1] == trace[..restartAt - 1];
  }

  lemma FinalPageIsExact(initial: Sys, trace: seq<Txn>, t: Txn, v: View)
    requires Valid(initial.db) && Inv(initial, trace, v) && v.resync
    requires t.CommitPage? && t.cleanup && t.folder == v.folder && t.worker == v.worker
    requires t.version == v.version && t.generation == v.generation
    requires Effective(Run(initial, trace), t)
    ensures ExactAt(initial, trace + [t], |trace|, v.folder, v.version, v.restartAt)
  {
    hide Step, ApplyAll, ApplyChange, HoldsExactlyDelivered, OlderThan, Valid, Effective, RowOf, Run, Committed,
         LeaseInv, RestartedItself, RestartTookEffect, Accounted, Deltas, PageChanges;
    var front, rest := trace[..v.restartAt], trace[v.restartAt..];
    var restarted := Run(initial, front);
    var now := trace + [t];
    assert trace == front + rest;
    RunSplit(initial, front, rest);
    TablesStayValid(initial, front);
    LeaseVersionsGrow(restarted, rest, v.folder);
    SyncGenerations.EffectiveMeansHeld(Run(initial, trace), t);
    HeldRestartTookEffect(initial, trace, v);
    EffectStays(initial, trace, now, v.restartAt, v.folder, v.generation);
    assert now[..v.restartAt] == front && now[v.restartAt..|trace|] == rest && now[..|trace| + 1] == now;
    RunAppend(initial, trace, t);
    if OlderThan(restarted.db, v.folder, t.generation) {
      ResyncIsExactUnderInterference(restarted, rest, t);
    }
  }

  lemma ExactStays(initial: Sys, trace: seq<Txn>, later: seq<Txn>, n: nat, folder: FolderId, version: nat,
      restartAt: nat)
    requires ExactAt(initial, trace, n, folder, version, restartAt) && trace <= later
    ensures ExactAt(initial, later, n, folder, version, restartAt)
  {
    hide HoldsExactlyDelivered, OlderThan, Run, Committed, Deltas, PageChanges;
    assert later[..restartAt] == trace[..restartAt] && later[..restartAt - 1] == trace[..restartAt - 1];
    assert later[restartAt..n] == trace[restartAt..n];
    assert later[..n + 1] == trace[..n + 1];
  }

  /** Giving the lease up commits no page. */
  lemma EndKeepsPages(initial: Sys, trace: seq<Txn>, t: Txn, v: View)
    requires Inv(initial, trace, v) && (t.Mark? || t.Release?)
    ensures Tallied(initial, trace + [t], v.folder, v.version, v.committed, v.mutated, v.removed)
    ensures KeepsProtocol(initial, trace + [t], v.timely, v.grantedAt, v.folder, v.version)
  {
    hide Step, Effective, Accounted, Tallied;
    RunAppend(initial, trace, t);
    AccountedAppend(initial, trace, t, v, v);
    AccountedKeepsProtocol(initial, trace + [t], v);
    TallyAppend(initial, trace, t, v.folder, v.version, v.committed, v.mutated, v.removed);
  }

  lemma AccountedKeepsProtocol(initial: Sys, trace: seq<Txn>, v: View)
    requires Accounted(initial, trace, v)
    ensures KeepsProtocol(initial, trace, v.timely, v.grantedAt, v.folder, v.version)
  {
  }

  lemma InvNamesPages(initial: Sys, trace: seq<Txn>, v: View)
    requires Inv(initial, trace, v)
    ensures Tallied(initial, trace, v.folder, v.version, v.committed, v.mutated, v.removed)
    ensures KeepsProtocol(initial, trace, v.timely, v.grantedAt, v.folder, v.version)
  {
    hide OwnTimely, CleansUp, Tallied;
  }

  /** A lease just granted starts a run with nothing committed. */
  lemma GrantStartsInv(initial: Sys, trace: seq<Txn>, t: Txn, generation: nat)
    requires t.Grab? && Effective(Run(initial, trace), t)
    ensures var s := Run(initial, trace);
            Inv(initial, trace + [t],
                View(t.folder, t.worker, RowOf(s, t.folder).lease.version + 1, [], 0, 0, generation,
                     generation == RowOf(s, t.folder).payload.generation, false, 0, |trace|))
  {
    hide ApplyAll, Accounted, ChangesUnder, RemovalsUnder;
    var version := RowOf(Run(initial, trace), t.folder).lease.version + 1;
    RunAppend(initial, trace, t);
    NothingCommittedUnderAVersionNotYetGranted(initial, trace, t.folder, version);
    NoPagesNoChanges(initial.db, Committed(initial, trace), t.folder, version);
    TallyAppend(initial, trace, t, t.folder, version, [], 0, 0);
    GrantStartsTheAccount(initial, trace, t, generation, View(t.folder, t.worker, version, [], 0, 0, generation,
        generation == RowOf(Run(initial, trace), t.folder).payload.generation, false, 0, |trace|));
  }

  lemma GrantStartsTheAccount(initial: Sys, trace: seq<Txn>, t: Txn, generation: nat, v: View)
    requires t.Grab? && Effective(Run(initial, trace), t)
    requires v.folder == t.folder && v.worker == t.worker && v.grantedAt == |trace| && v.generation == generation
    requires v.version == RowOf(Run(initial, trace), t.folder).lease.version + 1
    requires v.timely == (generation == RowOf(Run(initial, trace), t.folder).payload.generation) && !v.resync
    ensures Accounted(initial, trace + [t], v)
  {
    hide ApplyAll;
    var now := trace + [t];
    RunAppend(initial, trace, t);
    assert now[..|trace|] == trace && now[..|trace| + 1] == now && now[|trace|..] == [t];
    assert [t][..0] == [];
    assert OwnRestarts([], v.folder, v.version) == 0 && OwnRestarts([t], v.folder, v.version) == 0;
    assert Effective(Run(initial, now[..|trace|]), t);
    assert OwnTimely(initial, now, v.grantedAt, v.folder, v.version);
  }

  lemma ExactAtMeans(initial: Sys, trace: seq<Txn>, n: nat, folder: FolderId, version: nat, restartAt: nat)
    requires ExactAt(initial, trace, n, folder, version, restartAt)
    ensures 0 < restartAt <= n < |trace| && trace[n].CommitPage?
  {
  }

  /** Resync exactness without a guard: in any interleaving of runs whose reads were not overtaken, a run
      that restarted, kept its lease and reached its final page leaves the folder holding exactly what
      was delivered since the restart and not removed later. */
  lemma TimelyResyncsAreExact(initial: Sys, trace: seq<Txn>, n: nat, folder: FolderId, version: nat, restartAt: nat)
    requires 0 < restartAt <= n < |trace| && trace[n].CommitPage?
    ensures ExactAt(initial, trace, n, folder, version, restartAt)
            && StampsBounded(initial) && AllTimely(initial, trace) ==>
              LeftExact(initial, trace, n, folder, restartAt)
  {
    hide LeftExact, OlderThan, StampsBounded, Step, AllTimely, Effective;
    if ExactAt(initial, trace, n, folder, version, restartAt) && StampsBounded(initial) && AllTimely(initial, trace) {
      RestartsOpenAFreshGeneration(initial, trace);
      RestartKeepsTheTables(Run(initial, trace[..restartAt - 1]), trace[restartAt - 1]);
      assert trace[..restartAt][..restartAt - 1] == trace[..restartAt - 1];
    }
  }

  lemma RestartKeepsTheTables(s: Sys, t: Txn)
    requires t.Restart?
    ensures Step(s, t).db == s.db
  {
    NoChanges(s.db);
  }
}
