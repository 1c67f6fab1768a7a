/** The fenced lease that three tables share: the mail sync state, the credential refresh
    lock of a mail account, and the outbox event.

    A row carries a lock owner, a lock expiry and a lease version next to its own columns.
    Acquiring bumps the version; every later write is a compare-and-set on (worker, version).
    Each statement reads its own clock, so the clocks in a run are arbitrary. */
module Leases {

  datatype Option<+T> = None | Some(value: T)

  type Worker = nat
  type Time = int

  datatype Lease = Lease(lockedBy: Option<Worker>, lockedUntil: Option<Time>, version: nat)

  /** A row: its lease columns and everything else. */
  datatype Register<P> = Register(lease: Lease, payload: P)

  /** What a fenced write does to the two lock columns. */
  datatype LockEffect = Extend(until: Time) | Hold | Clear

  /** The two shapes of conditional UPDATE that the repositories issue, and a transaction that leaves the
      row alone. */
  datatype Op<!P> =
    | Acquire(worker: Worker, now: Time, until: Time, admit: P -> bool, claim: P -> P)
    | Write(worker: Worker, version: nat, change: P -> P, lock: LockEffect)
    | Skip

  /** An expiry of NULL never compares as expired. */
  predicate Expired(lease: Lease, now: Time) {
    lease.lockedUntil.Some? && lease.lockedUntil.value < now
  }

  /** The WHERE clause. */
  predicate Accepts<P>(r: Register<P>, op: Op<P>) {
    match op
    case Acquire(_, now, _, admit, _) =>
      admit(r.payload) && (r.lease.lockedBy.None? || Expired(r.lease, now))
    case Write(worker, version, _, _) =>
      r.lease.lockedBy == Some(worker) && r.lease.version == version
    case Skip => false
  }

  function LockAfter(lease: Lease, effect: LockEffect): Lease {
    match effect
    case Extend(until) => lease.(lockedUntil := Some(until))
    case Hold => lease
    case Clear => lease.(lockedBy := None, lockedUntil := None)
  }

  /** The row after the statement; zero matched rows leave it as it was. */
  function Apply<P>(r: Register<P>, op: Op<P>): Register<P> {
    if !Accepts(r, op) then r
    else
      match op
      case Acquire(worker, _, until, _, claim) =>
        Register(Lease(Some(worker), Some(until), r.lease.version + 1), claim(r.payload))
      case Write(_, _, change, lock) =>
        Register(LockAfter(r.lease, lock), change(r.payload))
      case Skip => r
  }

  /** The row after the first n statements of a run, in commit order. */
  function At<P>(r: Register<P>, ops: seq<Op<P>>, n: nat): Register<P>
    requires n <= |ops|
  {
    if n == 0 then r else Apply(At(r, ops, n - 1), ops[n - 1])
  }

  /** Statement i handed out a lease. */
  predicate Grants<P>(r: Register<P>, ops: seq<Op<P>>, i: nat)
    requires i < |ops|
  {
    ops[i].Acquire? && Accepts(At(r, ops, i), ops[i])
  }

  function GrantedVersion<P>(r: Register<P>, ops: seq<Op<P>>, i: nat): nat
    requires i < |ops| && Grants(r, ops, i)
  {
    At(r, ops, i + 1).lease.version
  }

  lemma {:induction false} VersionNeverDecreases<P>(r: Register<P>, ops: seq<Op<P>>, i: nat, j: nat)
    requires i <= j <= |ops|
    ensures At(r, ops, i).lease.version <= At(r, ops, j).lease.version
    decreases j - i
  {
    if i < j {
      VersionNeverDecreases(r, ops, i, j - 1);
    }
  }

  /** No lease version is ever granted twice, whatever the clocks say. */
  lemma GrantsAreDistinct<P>(r: Register<P>, ops: seq<Op<P>>, i: nat, j: nat)
    requires i < j < |ops| && Grants(r, ops, i) && Grants(r, ops, j)
    ensures GrantedVersion(r, ops, i) < GrantedVersion(r, ops, j)
  {
    VersionNeverDecreases(r, ops, i + 1, j);
  }

  /** After a newer grant, no write that carries an older version changes the row. */
  lemma StaleWritesAreFenced<P>(r: Register<P>, ops: seq<Op<P>>, i: nat, k: nat)
    requires i < k < |ops| && Grants(r, ops, i)
    requires ops[k].Write? && ops[k].version < GrantedVersion(r, ops, i)
    ensures !Accepts(At(r, ops, k), ops[k]) && At(r, ops, k + 1) == At(r, ops, k)
  {
    VersionNeverDecreases(r, ops, i + 1, k);
  }

  /** Statement i granted the lease that is held after n statements, and nothing between
      granted another one or gave it up. */
  ghost predicate HeldSince<P>(r: Register<P>, ops: seq<Op<P>>, i: nat, n: nat)
    requires n <= |ops|
  {
    && i < n
    && Grants(r, ops, i)
    && At(r, ops, n).lease.lockedBy == Some(ops[i].worker)
    && At(r, ops, n).lease.version == GrantedVersion(r, ops, i)
    && (forall k :: i < k < n && Accepts(At(r, ops, k), ops[k]) ==>
          ops[k].Write? && ops[k].lock != Clear
          && ops[k].worker == ops[i].worker && ops[k].version == GrantedVersion(r, ops, i))
  }

  /** A held lock was granted in this run to its holder, and since then only the holder wrote. */
  lemma {:induction false} HeldLockWasGranted<P>(r: Register<P>, ops: seq<Op<P>>, n: nat) returns (i: nat)
    requires r.lease.lockedBy.None? && n <= |ops|
    requires At(r, ops, n).lease.lockedBy.Some?
    ensures HeldSince(r, ops, i, n)
  {
    var before, op := At(r, ops, n - 1), ops[n - 1];
    if op.Acquire? && Accepts(before, op) {
      i := n - 1;
    } else {
      i := HeldLockWasGranted(r, ops, n - 1);
    }
  }

  /** As long as a worker holds the lock at the version a statement granted it, it has held it ever since,
      and nobody else wrote. */
  lemma {:induction false} HeldThroughout<P>(r: Register<P>, ops: seq<Op<P>>, i: nat, m: nat, n: nat)
    requires i < m <= n <= |ops| && Grants(r, ops, i)
    requires At(r, ops, n).lease.lockedBy == Some(ops[i].worker)
    requires At(r, ops, n).lease.version == GrantedVersion(r, ops, i)
    ensures HeldSince(r, ops, i, m)
    decreases n - i, n - m
  {
    VersionNeverDecreases(r, ops, i + 1, m);
    VersionNeverDecreases(r, ops, m, n);
    if m < n {
      VersionNeverDecreases(r, ops, i + 1, n - 1);
      HeldThroughout(r, ops, i, m, n - 1);
    } else if i + 1 < n {
      VersionNeverDecreases(r, ops, i + 1, n - 1);
      HeldThroughout(r, ops, i, n - 1, n - 1);
    }
  }

  /** Statement i is the one grant in the whole run under which statement k could be issued. */
  ghost predicate IsTheGrantOf<P>(r: Register<P>, ops: seq<Op<P>>, i: nat, k: nat)
    requires k < |ops| && ops[k].Write?
  {
    && HeldSince(r, ops, i, k)
    && ops[i].worker == ops[k].worker && GrantedVersion(r, ops, i) == ops[k].version
    && (forall g: nat :: g < |ops| && Grants(r, ops, g) && GrantedVersion(r, ops, g) == ops[k].version ==> g == i)
  }

  /** Fencing: a write that takes effect belongs to one grant of this run, made to the same worker
      at the same version, with no other grant, no release and no other writer in between. */
  lemma EveryEffectiveWriteIsTheHolders<P>(r: Register<P>, ops: seq<Op<P>>, k: nat)
    requires r.lease.lockedBy.None? && k < |ops|
    requires ops[k].Write? && Accepts(At(r, ops, k), ops[k])
    ensures exists i: nat :: IsTheGrantOf(r, ops, i, k)
  {
    var i := HeldLockWasGranted(r, ops, k);
    forall g: nat | g < |ops| && Grants(r, ops, g) && GrantedVersion(r, ops, g) == ops[k].version
      ensures g == i
    {
      if g < i {
        GrantsAreDistinct(r, ops, g, i);
      } else if i < g {
        GrantsAreDistinct(r, ops, i, g);
      }
    }
    assert IsTheGrantOf(r, ops, i, k);
  }

  /** The expiry alone takes nothing away: an overdue holder keeps writing until someone else is
      granted the lease, so a worker is fenced out by takeover, not by its clock. */
  lemma OverdueHolderStillWrites<P>(r: Register<P>, ops: seq<Op<P>>, i: nat, op: Op<P>)
    requires i < |ops| && Grants(r, ops, i)
    requires op.Write? && op.worker == ops[i].worker && op.version == GrantedVersion(r, ops, i)
    requires forall k :: i < k < |ops| ==> !Grants(r, ops, k) && !(ops[k].Write? && ops[k].lock.Clear?)
    ensures Accepts(At(r, ops, |ops|), op)
  {
    var n := i + 1;
    while n < |ops|
      invariant i < n <= |ops|
      invariant Accepts(At(r, ops, n), op)
    {
      assert !Grants(r, ops, n);
      n := n + 1;
    }
  }

  /** Since the grant nobody's clock passed its expiry, and the holder neither gave it up nor cut it short. */
  predicate LeftAlone<P>(r: Register<P>, ops: seq<Op<P>>, i: nat, n: nat)
    requires i < n <= |ops| && Grants(r, ops, i)
  {
    forall k :: i < k < n ==>
      && (ops[k].Acquire? ==> ops[k].now <= ops[i].until)
      && (ops[k].Write? && ops[k].version == GrantedVersion(r, ops, i) ==>
            ops[k].lock.Hold? || (ops[k].lock.Extend? && ops[i].until <= ops[k].lock.until))
  }

  /** A lease keeps everybody else out for its whole duration. */
  lemma {:induction false} LeasesLast<P>(r: Register<P>, ops: seq<Op<P>>, i: nat, n: nat)
    requires i < n <= |ops| && Grants(r, ops, i) && LeftAlone(r, ops, i, n)
    ensures var l := At(r, ops, n).lease;
            && l.lockedBy == Some(ops[i].worker) && l.version == GrantedVersion(r, ops, i)
            && l.lockedUntil.Some? && ops[i].until <= l.lockedUntil.value
  {
    if i + 1 < n {
      assert LeftAlone(r, ops, i, n - 1);
      LeasesLast(r, ops, i, n - 1);
    }
  }

  /** And no longer: while the holder does nothing, another grant is made exactly to a clock that passed
      the expiry set at the grant. */
  lemma TakenOverIffExpired<P>(r: Register<P>, ops: seq<Op<P>>, i: nat, op: Op<P>)
    requires i < |ops| && Grants(r, ops, i) && op.Acquire?
    requires forall k :: i < k < |ops| ==>
               && (ops[k].Acquire? ==> ops[k].now <= ops[i].until)
               && (ops[k].Write? ==> ops[k].version != GrantedVersion(r, ops, i))
    ensures Accepts(At(r, ops, |ops|), op) <==> op.admit(At(r, ops, |ops|).payload) && ops[i].until < op.now
    ensures At(r, ops, |ops|).payload == At(r, ops, i + 1).payload
  {
    var n := i + 1;
    while n < |ops|
      invariant i < n <= |ops|
      invariant At(r, ops, n) == At(r, ops, i + 1)
    {
      n := n + 1;
    }
  }
}
