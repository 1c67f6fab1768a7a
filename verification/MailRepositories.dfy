/** The conditional UPDATE statements of the mail repositories: the sync state, the credential
    refresh lock and the outbox event, each an instance of the one fenced register. */
module MailRepositories {
  import opened Leases

  // --- mail sync state ------------------------------------------------------------------

  datatype SyncStatus = PendingInitialSync | Syncing | DeltaTracking | AuthRequired | Error

  datatype SyncColumns = SyncColumns(
    state: SyncStatus, token: Option<string>, generation: nat, updatedAt: Time)

  function AcquireSyncOp(worker: Worker, now: Time, duration: int): Op<SyncColumns> {
    Acquire(worker, now, now + duration, s => true, s => s)
  }

  function RenewSyncOp(worker: Worker, version: nat, now: Time, duration: int): Op<SyncColumns> {
    Write(worker, version, (s: SyncColumns) => s.(updatedAt := now), Extend(now + duration))
  }

  /** An absent token or generation keeps the column; clearToken counts only without a token. */
  function SetSync(s: SyncColumns, now: Time, state: SyncStatus, token: Option<string>,
                   generation: Option<nat>, clearToken: bool): SyncColumns {
    SyncColumns(state,
                if token.Some? then token else if clearToken then None else s.token,
                if generation.Some? then generation.value else s.generation,
                now)
  }

  function UpdateSyncOp(worker: Worker, version: nat, now: Time, state: SyncStatus, token: Option<string>,
                        generation: Option<nat>, clearLock: bool, clearToken: bool): Op<SyncColumns> {
    Write(worker, version, s => SetSync(s, now, state, token, generation, clearToken),
          if clearLock then Clear else Hold)
  }

  function ReleaseSyncOp(worker: Worker, version: nat, now: Time): Op<SyncColumns> {
    Write(worker, version, (s: SyncColumns) => s.(updatedAt := now), Clear)
  }

  class MailSyncStateRow {
    var state: SyncStatus
    var syncToken: Option<string>
    var resyncGeneration: nat
    var updatedAt: Time
    var lockedBy: Option<Worker>
    var lockedUntil: Option<Time>
    var leaseVersion: nat

    function Row(): Register<SyncColumns>
      reads this
    {
      Register(Lease(lockedBy, lockedUntil, leaseVersion),
               SyncColumns(state, syncToken, resyncGeneration, updatedAt))
    }

    constructor (now: Time)
      ensures Row() == Register(Lease(None, None, 1), SyncColumns(PendingInitialSync, None, 1, now))
    {
      state, syncToken, resyncGeneration, updatedAt := PendingInitialSync, None, 1, now;
      lockedBy, lockedUntil, leaseVersion := None, None, 1;
    }

    method AcquireSyncLease(worker: Worker, now: Time, duration: int) returns (granted: Option<nat>)
      modifies this
      ensures Row() == Apply(old(Row()), AcquireSyncOp(worker, now, duration))
      ensures granted.Some? <==> old(lockedBy).None? || (old(lockedUntil).Some? && old(lockedUntil).value < now)
      ensures granted.Some? ==>
                && granted.value == leaseVersion == old(leaseVersion) + 1
                && lockedBy == Some(worker) && lockedUntil == Some(now + duration)
      ensures unchanged(`state) && unchanged(`syncToken) && unchanged(`resyncGeneration) && unchanged(`updatedAt)
      ensures granted.None? ==> unchanged(this)
    {
      if lockedBy.None? || (lockedUntil.Some? && lockedUntil.value < now) {
        lockedBy, lockedUntil, leaseVersion := Some(worker), Some(now + duration), leaseVersion + 1;
        return Some(leaseVersion);
      }
      return None;
    }

    method RenewSyncLease(worker: Worker, version: nat, now: Time, duration: int) returns (ok: bool)
      modifies this
      ensures Row() == Apply(old(Row()), RenewSyncOp(worker, version, now, duration))
      ensures ok <==> old(lockedBy) == Some(worker) && old(leaseVersion) == version
      ensures ok ==> lockedUntil == Some(now + duration) && updatedAt == now
      ensures unchanged(`state) && unchanged(`syncToken) && unchanged(`resyncGeneration)
      ensures unchanged(`lockedBy) && unchanged(`leaseVersion)
      ensures !ok ==> unchanged(this)
    {
      ok := lockedBy == Some(worker) && leaseVersion == version;
      if ok {
        lockedUntil, updatedAt := Some(now + duration), now;
      }
    }

    method UpdateSyncStateCas(worker: Worker, version: nat, now: Time, newState: SyncStatus, token: Option<string>,
                              generation: Option<nat>, clearLock: bool, clearToken: bool) returns (ok: bool)
      modifies this
      ensures Row() == Apply(old(Row()),
                  UpdateSyncOp(worker, version, now, newState, token, generation, clearLock, clearToken))
      ensures ok <==> old(lockedBy) == Some(worker) && old(leaseVersion) == version
      ensures ok ==> state == newState && updatedAt == now
      ensures ok ==> syncToken == if token.Some? then token else if clearToken then None else old(syncToken)
      ensures ok ==> resyncGeneration == if generation.Some? then generation.value else old(resyncGeneration)
      ensures ok && clearLock ==> lockedBy.None? && lockedUntil.None?
      ensures !clearLock ==> unchanged(`lockedBy) && unchanged(`lockedUntil)
      ensures unchanged(`leaseVersion) && (!ok ==> unchanged(this))
    {
      ok := lockedBy == Some(worker) && leaseVersion == version;
      if ok {
        state, updatedAt := newState, now;
        if token.Some? {
          syncToken := token;
        } else if clearToken {
          syncToken := None;
        }
        if generation.Some? {
          resyncGeneration := generation.value;
        }
        if clearLock {
          lockedBy, lockedUntil := None, None;
        }
      }
    }

    method ReleaseSyncLease(worker: Worker, version: nat, now: Time) returns (ok: bool)
      modifies this
      ensures Row() == Apply(old(Row()), ReleaseSyncOp(worker, version, now))
      ensures ok <==> old(lockedBy) == Some(worker) && old(leaseVersion) == version
      ensures ok ==> lockedBy.None? && lockedUntil.None? && updatedAt == now
      ensures unchanged(`state) && unchanged(`syncToken) && unchanged(`resyncGeneration) && unchanged(`leaseVersion)
      ensures !ok ==> unchanged(this)
    {
      ok := lockedBy == Some(worker) && leaseVersion == version;
      if ok {
        lockedBy, lockedUntil, updatedAt := None, None, now;
      }
    }
  }

  // --- credential refresh lock ----------------------------------------------------------

  datatype AccountColumns = AccountColumns(generation: nat)

  function AcquireRefreshOp(worker: Worker, now: Time, duration: int): Op<AccountColumns> {
    Acquire(worker, now, now + duration, a => true, a => a)
  }

  function FinalizeRefreshOp(worker: Worker, version: nat): Op<AccountColumns> {
    Write(worker, version, (a: AccountColumns) => AccountColumns(a.generation + 1), Clear)
  }

  function ReleaseRefreshOp(worker: Worker, version: nat): Op<AccountColumns> {
    Write(worker, version, a => a, Clear)
  }

  class MailAccountRow {
    var credentialGeneration: nat
    var refreshLockedBy: Option<Worker>
    var refreshLockedUntil: Option<Time>
    var refreshLeaseVersion: nat

    function Row(): Register<AccountColumns>
      reads this
    {
      Register(Lease(refreshLockedBy, refreshLockedUntil, refreshLeaseVersion), AccountColumns(credentialGeneration))
    }

    constructor ()
      ensures Row() == Register(Lease(None, None, 1), AccountColumns(1))
    {
      credentialGeneration := 1;
      refreshLockedBy, refreshLockedUntil, refreshLeaseVersion := None, None, 1;
    }

    /** Returns the granted lease version together with the generation seen by the statement. */
    method AcquireRefreshLease(worker: Worker, now: Time, duration: int) returns (granted: Option<(nat, nat)>)
      modifies this
      ensures Row() == Apply(old(Row()), AcquireRefreshOp(worker, now, duration))
      ensures granted.Some? <==>
                old(refreshLockedBy).None? || (old(refreshLockedUntil).Some? && old(refreshLockedUntil).value < now)
      ensures granted.Some? ==>
                && granted.value == (refreshLeaseVersion, credentialGeneration)
                && refreshLeaseVersion == old(refreshLeaseVersion) + 1
                && refreshLockedBy == Some(worker) && refreshLockedUntil == Some(now + duration)
      ensures unchanged(`credentialGeneration) && (granted.None? ==> unchanged(this))
    {
      if refreshLockedBy.None? || (refreshLockedUntil.Some? && refreshLockedUntil.value < now) {
        refreshLockedBy, refreshLockedUntil := Some(worker), Some(now + duration);
        refreshLeaseVersion := refreshLeaseVersion + 1;
        return Some((refreshLeaseVersion, credentialGeneration));
      }
      return None;
    }

    method FinalizeRefreshLease(worker: Worker, version: nat) returns (ok: bool)
      modifies this
      ensures Row() == Apply(old(Row()), FinalizeRefreshOp(worker, version))
      ensures credentialGeneration == old(credentialGeneration) + (if ok then 1 else 0)
      ensures ok <==> old(refreshLockedBy) == Some(worker) && old(refreshLeaseVersion) == version
      ensures ok ==> refreshLockedBy.None? && refreshLockedUntil.None?
      ensures unchanged(`refreshLeaseVersion) && (!ok ==> unchanged(this))
    {
      ok := refreshLockedBy == Some(worker) && refreshLeaseVersion == version;
      if ok {
        credentialGeneration := credentialGeneration + 1;
        refreshLockedBy, refreshLockedUntil := None, None;
      }
    }

    method ReleaseRefreshLease(worker: Worker, version: nat) returns (ok: bool)
      modifies this
      ensures Row() == Apply(old(Row()), ReleaseRefreshOp(worker, version))
      ensures credentialGeneration == old(credentialGeneration)
      ensures ok <==> old(refreshLockedBy) == Some(worker) && old(refreshLeaseVersion) == version
      ensures ok ==> refreshLockedBy.None? && refreshLockedUntil.None?
      ensures unchanged(`refreshLeaseVersion) && (!ok ==> unchanged(this))
    {
      ok := refreshLockedBy == Some(worker) && refreshLeaseVersion == version;
      if ok {
        refreshLockedBy, refreshLockedUntil := None, None;
      }
    }
  }

  // --- outbox event ---------------------------------------------------------------------

  datatype OutboxStatus = Pending | InFlight | Done | DeadLetter

  datatype OutboxColumns = OutboxColumns(
    status: OutboxStatus, attemptCount: nat, lastError: Option<string>,
    nextAttemptAt: Time, completedAt: Option<Time>)

  predicate Eligible(e: OutboxColumns, now: Time) {
    (e.status.Pending? || e.status.InFlight?) && e.nextAttemptAt <= now
  }

  function AcquireOutboxOp(worker: Worker, now: Time, duration: int): Op<OutboxColumns> {
    Acquire(worker, now, now + duration, e => Eligible(e, now), (e: OutboxColumns) => e.(status := InFlight))
  }

  /** A recorded error is what counts an attempt. */
  function SetStatus(e: OutboxColumns, now: Time, status: OutboxStatus, error: Option<string>,
                     next: Option<Time>): OutboxColumns {
    OutboxColumns(status,
                  if error.Some? then e.attemptCount + 1 else e.attemptCount,
                  if error.Some? then error else e.lastError,
                  if next.Some? then next.value else e.nextAttemptAt,
                  if status.Done? then Some(now) else e.completedAt)
  }

  function UpdateStatusOp(worker: Worker, version: nat, now: Time, status: OutboxStatus,
                          error: Option<string>, next: Option<Time>): Op<OutboxColumns> {
    Write(worker, version, e => SetStatus(e, now, status, error, next), Clear)
  }

  function NewEvent(now: Time): Register<OutboxColumns> {
    Register(Lease(None, None, 1), OutboxColumns(Pending, 0, None, now, None))
  }

  class OutboxEventRow {
    var status: OutboxStatus
    var attemptCount: nat
    var lastError: Option<string>
    var nextAttemptAt: Time
    var completedAt: Option<Time>
    var lockedBy: Option<Worker>
    var lockedUntil: Option<Time>
    var leaseVersion: nat

    function Row(): Register<OutboxColumns>
      reads this
    {
      Register(Lease(lockedBy, lockedUntil, leaseVersion),
               OutboxColumns(status, attemptCount, lastError, nextAttemptAt, completedAt))
    }

    constructor (now: Time)
      ensures Row() == NewEvent(now)
    {
      status, attemptCount, lastError, nextAttemptAt, completedAt := Pending, 0, None, now, None;
      lockedBy, lockedUntil, leaseVersion := None, None, 1;
    }

    method AcquireOutboxLease(worker: Worker, now: Time, duration: int) returns (granted: Option<nat>)
      modifies this
      ensures Row() == Apply(old(Row()), AcquireOutboxOp(worker, now, duration))
      ensures granted.Some? <==>
                && (old(status).Pending? || old(status).InFlight?) && old(nextAttemptAt) <= now
                && (old(lockedBy).None? || (old(lockedUntil).Some? && old(lockedUntil).value < now))
      ensures granted.Some? ==>
                && granted.value == leaseVersion == old(leaseVersion) + 1 && status.InFlight?
                && lockedBy == Some(worker) && lockedUntil == Some(now + duration)
      ensures unchanged(`attemptCount) && unchanged(`lastError) && unchanged(`nextAttemptAt) && unchanged(`completedAt)
      ensures granted.None? ==> unchanged(this)
    {
      if (status.Pending? || status.InFlight?) && nextAttemptAt <= now
         && (lockedBy.None? || (lockedUntil.Some? && lockedUntil.value < now))
      {
        lockedBy, lockedUntil, leaseVersion := Some(worker), Some(now + duration), leaseVersion + 1;
        status := InFlight;
        return Some(leaseVersion);
      }
      return None;
    }

    method UpdateStatusCas(worker: Worker, version: nat, now: Time, newStatus: OutboxStatus,
                           error: Option<string>, next: Option<Time>) returns (ok: bool)
      modifies this
      ensures Row() == Apply(old(Row()), UpdateStatusOp(worker, version, now, newStatus, error, next))
      ensures ok <==> old(lockedBy) == Some(worker) && old(leaseVersion) == version
      ensures ok ==> status == newStatus && lockedBy.None? && lockedUntil.None?
      ensures ok ==>
                && attemptCount == old(attemptCount) + (if error.Some? then 1 else 0)
                && lastError == (if error.Some? then error else old(lastError))
                && nextAttemptAt == (if next.Some? then next.value else old(nextAttemptAt))
                && completedAt == (if newStatus.Done? then Some(now) else old(completedAt))
      ensures unchanged(`leaseVersion) && (!ok ==> unchanged(this))
    {
      ok := lockedBy == Some(worker) && leaseVersion == version;
      if ok {
        status, lockedBy, lockedUntil := newStatus, None, None;
        if error.Some? {
          lastError, attemptCount := error, attemptCount + 1;
        }
        if next.Some? {
          nextAttemptAt := next.value;
        }
        if newStatus.Done? {
          completedAt := Some(now);
        }
      }
    }
  }
}
