/** Generations over an interleaving of runs: what it takes for every restart to open a fresh one. */
module SyncGenerations {
  import opened Leases
  import opened MailRepositories
  import opened MailData
  import opened MessageProcessing
  import opened SyncSystem

  // --- the protocol of runs whose reads were not overtaken ------------------------------

  /** Transaction j granted this lease version of the folder to the worker. */
  ghost predicate GrantedAt(s: Sys, txns: seq<Txn>, j: nat, folder: FolderId, worker: Worker, version: nat)
    requires j < |txns|
  {
    && txns[j].Grab? && txns[j].folder == folder && txns[j].worker == worker
    && Effective(Run(s, txns[..j]), txns[j])
    && RowOf(Run(s, txns[..j + 1]), folder).lease.version == version
  }

  predicate OwnRestart(t: Txn, folder: FolderId, version: nat) {
    t.Restart? && t.folder == folder && t.version == version
  }

  /** The restarts that the holder of a lease version asked for. */
  function OwnRestarts(txns: seq<Txn>, folder: FolderId, version: nat): nat {
    if txns == [] then 0
    else
      OwnRestarts(txns[..|txns| - 1], folder, version)
      + (if OwnRestart(txns[|txns| - 1], folder, version) then 1 else 0)
  }

  ghost function GenerationAt(s: Sys, txns: seq<Txn>, j: nat, folder: FolderId): nat
    requires j <= |txns|
  {
    RowOf(Run(s, txns[..j]), folder).payload.generation
  }

  /** A page or a restart as a run issues it that was granted its lease by transaction j: with the
      generation that the row had just then, one up for each restart of its own. */
  ghost predicate FollowsGrant(s: Sys, txns: seq<Txn>, i: nat, j: nat)
    requires i < |txns| && (txns[i].CommitPage? || txns[i].Restart?)
  {
    var t := txns[i];
    && j < i && GrantedAt(s, txns, j, t.folder, t.worker, t.version)
    && t.generation == GenerationAt(s, txns, j, t.folder) + OwnRestarts(txns[j..i], t.folder, t.version)
                       + (if t.Restart? then 1 else 0)
  }

  ghost predicate Timely(s: Sys, txns: seq<Txn>, i: nat)
    requires i < |txns|
  {
    txns[i].CommitPage? || txns[i].Restart? ==> exists j :: 0 <= j < i && FollowsGrant(s, txns, i, j)
  }

  /** No run was overtaken between reading its generation and being granted its lease. */
  ghost predicate AllTimely(s: Sys, txns: seq<Txn>) {
    forall i :: 0 <= i < |txns| ==> Timely(s, txns, i)
  }

  // --- such runs use the row's generation -----------------------------------------------

  lemma GrantIsAGrant(s: Sys, txns: seq<Txn>, j: nat, folder: FolderId, worker: Worker, version: nat)
    requires j < |txns| && GrantedAt(s, txns, j, folder, worker, version)
    ensures var r, ops := RowOf(s, folder), Statements(s, txns, folder);
            && Grants(r, ops, j) && GrantedVersion(r, ops, j) == version && ops[j].worker == worker
  {
    hide RowOf, Run, Apply;
    RowIsTheRegister(s, txns, folder, j);
    RowIsTheRegister(s, txns, folder, j + 1);
  }

  /** Two grants never share a version, so a version names its run. */
  lemma VersionsNameTheirRun(s: Sys, txns: seq<Txn>, j: nat, k: nat, folder: FolderId, a: Worker, b: Worker,
        version: nat)
    requires j < |txns| && k < |txns|
    requires GrantedAt(s, txns, j, folder, a, version) && GrantedAt(s, txns, k, folder, b, version)
    ensures j == k
  {
    var r, ops := RowOf(s, folder), Statements(s, txns, folder);
    hide GrantedAt, RowOf, Run, Apply;
    GrantIsAGrant(s, txns, j, folder, a, version);
    GrantIsAGrant(s, txns, k, folder, b, version);
    if j < k {
      GrantsAreDistinct(r, ops, j, k);
    } else if k < j {
      GrantsAreDistinct(r, ops, k, j);
    }
  }

  /** The row belongs to the worker at this version. */
  predicate Holds(row: Register<SyncColumns>, worker: Worker, version: nat) {
    row.lease.lockedBy == Some(worker) && row.lease.version == version
  }

  /** While the lease is held, each transaction that took effect on the folder since the grant was the
      holder's own, and gave nothing up. */
  lemma HolderSince(s: Sys, txns: seq<Txn>, j: nat, m: nat, n: nat, folder: FolderId, worker: Worker, version: nat)
    requires j < m < n <= |txns| && GrantedAt(s, txns, j, folder, worker, version)
    requires Holds(RowOf(Run(s, txns[..n]), folder), worker, version)
    ensures Holds(RowOf(Run(s, txns[..m]), folder), worker, version)
    ensures txns[m].folder == folder && Effective(Run(s, txns[..m]), txns[m]) ==>
              !txns[m].Grab? && !txns[m].Mark? && !txns[m].Release? && txns[m].version == version
  {
    var r, ops := RowOf(s, folder), Statements(s, txns, folder);
    GrantIsAGrant(s, txns, j, folder, worker, version);
    RowIsTheRegister(s, txns, folder, m);
    RowIsTheRegister(s, txns, folder, n);
    hide GrantedAt, RowOf, Run, Apply;
    HeldThroughout(r, ops, j, m, n);
    HeldThroughout(r, ops, j, n, n);
  }

  lemma GenerationAfterStep(s: Sys, t: Txn, folder: FolderId)
    ensures RowOf(Step(s, t), folder).payload.generation
            == if t.folder == folder && t.Restart? && Effective(s, t) then t.generation
               else RowOf(s, folder).payload.generation
  {
    hide ApplyAll, Delta, Possible;
  }

  lemma OwnRestartsAppend(txns: seq<Txn>, j: nat, n: nat, folder: FolderId, version: nat)
    requires j <= n < |txns|
    ensures OwnRestarts(txns[j..n + 1], folder, version)
            == OwnRestarts(txns[j..n], folder, version) + (if OwnRestart(txns[n], folder, version) then 1 else 0)
  {
    assert txns[j..n + 1][..n - j] == txns[j..n];
  }

  /** As long as the lease is held the row's generation is what the holder counts. */
  lemma {:induction false} RowCountsAlong(s: Sys, txns: seq<Txn>, j: nat, n: nat, folder: FolderId, worker: Worker,
        version: nat)
    requires AllTimely(s, txns) && j < n <= |txns| && GrantedAt(s, txns, j, folder, worker, version)
    requires Holds(RowOf(Run(s, txns[..n]), folder), worker, version)
    ensures GenerationAt(s, txns, n, folder)
            == GenerationAt(s, txns, j, folder) + OwnRestarts(txns[j..n], folder, version)
    decreases n
  {
    hide RowOf, Effective, Step, Possible, Accepts;
    var m := n - 1;
    assert txns[..n][..m] == txns[..m];
    GenerationAfterStep(Run(s, txns[..m]), txns[m], folder);
    OwnRestartsAppend(txns, j, m, folder, version);
    assert txns[j..j] == [];
    if j < m {
      HolderSince(s, txns, j, m, n, folder, worker, version);
      RowCountsAlong(s, txns, j, m, folder, worker, version);
      if OwnRestart(txns[m], folder, version) {
        assert Timely(s, txns, m);
        var k :| 0 <= k < m && FollowsGrant(s, txns, m, k);
        VersionsNameTheirRun(s, txns, j, k, folder, worker, txns[m].worker, version);
        HolderRestarts(Run(s, txns[..m]), txns[m]);
      }
    }
  }

  lemma HolderRestarts(s: Sys, t: Txn)
    requires t.Restart? && Holds(RowOf(s, t.folder), t.worker, t.version)
    ensures Effective(s, t)
  {
  }

  lemma EffectiveMeansHeld(s: Sys, t: Txn)
    requires !t.Grab? && Effective(s, t)
    ensures Holds(RowOf(s, t.folder), t.worker, t.version)
  {
  }

  /** Runs that were not overtaken stamp and restart by the row. */
  lemma TimelyRunsUseTheRowGeneration(s: Sys, txns: seq<Txn>)
    requires AllTimely(s, txns)
    ensures AlwaysUsesRowGeneration(s, txns)
  {
    hide RowOf, Effective, Run, GrantedAt;
    forall i | 0 <= i < |txns| ensures UsesRowGeneration(Run(s, txns[..i]), txns[i]) {
      var t := txns[i];
      if (t.CommitPage? || t.Restart?) && Effective(Run(s, txns[..i]), t) {
        assert Timely(s, txns, i);
        var j :| 0 <= j < i && FollowsGrant(s, txns, i, j);
        EffectiveMeansHeld(Run(s, txns[..i]), t);
        RowCountsAlong(s, txns, j, i, t.folder, t.worker, t.version);
      }
    }
  }

  // --- and so every restart opens a fresh one -------------------------------------------

  ghost predicate AlwaysUsesRowGeneration(s: Sys, txns: seq<Txn>) {
    forall i :: 0 <= i < |txns| ==> UsesRowGeneration(Run(s, txns[..i]), txns[i])
  }

  lemma {:induction false} RowGenerationsAreFresh(s: Sys, txns: seq<Txn>)
    requires StampsBounded(s) && AlwaysUsesRowGeneration(s, txns)
    ensures StampsBounded(Run(s, txns))
    ensures forall i :: 0 <= i < |txns| && txns[i].Restart? && Effective(Run(s, txns[..i]), txns[i]) ==>
              OlderThan(Run(s, txns[..i]).db, txns[i].folder, txns[i].generation)
  {
    hide Step, Effective, UsesRowGeneration, StampsBounded, OlderThan;
    if txns != [] {
      var n := |txns| - 1;
      var front := txns[..n];
      forall i | 0 <= i < n ensures UsesRowGeneration(Run(s, front[..i]), front[i]) {
        assert front[..i] == txns[..i];
      }
      RowGenerationsAreFresh(s, front);
      StepKeepsStampsBounded(Run(s, front), txns[n]);
      forall i | 0 <= i < |txns| && txns[i].Restart? && Effective(Run(s, txns[..i]), txns[i])
        ensures OlderThan(Run(s, txns[..i]).db, txns[i].folder, txns[i].generation)
      {
        if i < n {
          assert front[..i] == txns[..i] && front[i] == txns[i];
        } else {
          RestartIsFresh(Run(s, front), txns[n]);
        }
      }
    }
  }

  lemma RestartIsFresh(s: Sys, t: Txn)
    requires StampsBounded(s) && UsesRowGeneration(s, t) && t.Restart? && Effective(s, t)
    ensures OlderThan(s.db, t.folder, t.generation)
  {
  }

  /** The guard of resync exactness is an invariant of every interleaving of runs whose reads were not
      overtaken: each restart opens a generation above every stamp in its folder. */
  lemma RestartsOpenAFreshGeneration(s: Sys, txns: seq<Txn>)
    requires StampsBounded(s) && AllTimely(s, txns)
    ensures StampsBounded(Run(s, txns))
    ensures forall i :: 0 <= i < |txns| && txns[i].Restart? && Effective(Run(s, txns[..i]), txns[i]) ==>
              OlderThan(Run(s, txns[..i]).db, txns[i].folder, txns[i].generation)
  {
    hide AllTimely, StampsBounded, AlwaysUsesRowGeneration;
    TimelyRunsUseTheRowGeneration(s, txns);
    RowGenerationsAreFresh(s, txns);
  }
}
