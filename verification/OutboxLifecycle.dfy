/** The life of one outbox event under any number of workers that claim it, fail, dead-letter
    or complete it, crash, or come back after their lease was taken over. */
module OutboxLifecycle {
  import opened Leases
  import opened MailRepositories

  /** The row, the attempt count that each claim read in its own transaction (keyed by the lease
      version it was granted), and how many claims took over an unfinished one. */
  datatype EventState = EventState(row: Register<OutboxColumns>, seen: map<nat, nat>, takeovers: nat)

  /** What a worker does to the row under the lease version it holds. */
  datatype Move =
    | Claim(worker: Worker, now: Time, duration: int)
    | Complete(worker: Worker, version: nat, now: Time)
    | Abandon(worker: Worker, version: nat, now: Time, reason: string)
    | Fail(worker: Worker, version: nat, now: Time, reason: string, delay: int)

  function Created(now: Time): EventState {
    EventState(NewEvent(now), map[], 0)
  }

  /** Any non-positive budget still allows one attempt. */
  function Budget(maxAttempts: int): nat {
    if maxAttempts < 1 then 1 else maxAttempts
  }

  /** The statement behind a move. A failure is retried or dead-lettered by the attempt count the
      worker read when it claimed, not by the one in the row now. */
  function MoveOp(s: EventState, m: Move, maxAttempts: int): Op<OutboxColumns>
    requires m.Fail? ==> m.version in s.seen
  {
    match m
    case Claim(worker, now, duration) => AcquireOutboxOp(worker, now, duration)
    case Complete(worker, version, now) => UpdateStatusOp(worker, version, now, Done, None, None)
    case Abandon(worker, version, now, reason) => UpdateStatusOp(worker, version, now, DeadLetter, Some(reason), None)
    case Fail(worker, version, now, reason, delay) =>
      if s.seen[version] + 1 >= maxAttempts
      then UpdateStatusOp(worker, version, now, DeadLetter, Some(reason), None)
      else UpdateStatusOp(worker, version, now, Pending, Some(reason), Some(now + delay))
  }

  /** A worker can only fail a claim it was granted. */
  predicate Possible(s: EventState, m: Move) {
    m.Fail? ==> m.version in s.seen
  }

  predicate Effective(s: EventState, m: Move, maxAttempts: int) {
    Possible(s, m) && Accepts(s.row, MoveOp(s, m, maxAttempts))
  }

  function Step(s: EventState, m: Move, maxAttempts: int): EventState {
    if !Effective(s, m, maxAttempts) then s
    else
      var row := Apply(s.row, MoveOp(s, m, maxAttempts));
      if m.Claim? then
        EventState(row, s.seen[row.lease.version := row.payload.attemptCount],
                   s.takeovers + (if s.row.payload.status.InFlight? then 1 else 0))
      else
        s.(row := row)
  }

  function Run(s: EventState, moves: seq<Move>, maxAttempts: int): EventState {
    if moves == [] then s
    else Step(Run(s, moves[..|moves| - 1], maxAttempts), moves[|moves| - 1], maxAttempts)
  }

  function Flag(b: bool): nat { if b then 1 else 0 }

  predicate Terminal(s: EventState) {
    s.row.payload.status.Done? || s.row.payload.status.DeadLetter?
  }

  /** What every move keeps. The third line is the ledger of claims. */
  ghost predicate Consistent(s: EventState, maxAttempts: int) {
    var e, l := s.row.payload, s.row.lease;
    && (e.status.InFlight? <==> l.lockedBy.Some?)
    && (e.status.InFlight? ==> l.version in s.seen && s.seen[l.version] == e.attemptCount)
    && l.version == 1 + e.attemptCount + s.takeovers + Flag(e.status.Done?) + Flag(e.status.InFlight?)
    && (!e.status.DeadLetter? ==> e.attemptCount < Budget(maxAttempts))
    && e.attemptCount <= Budget(maxAttempts)
    && (forall v :: v in s.seen ==> v <= l.version)
  }

  lemma StepKeepsConsistent(s: EventState, m: Move, maxAttempts: int)
    requires Consistent(s, maxAttempts)
    ensures Consistent(Step(s, m, maxAttempts), maxAttempts)
  {
    if Effective(s, m, maxAttempts) {
      assert s.row.payload.status.InFlight? || m.Claim?;
    }
  }

  /** In every reachable state: in flight exactly while locked, a live event has budget left, and
      the lease version counts recorded failures, takeovers, completion and the claim in flight. */
  lemma {:induction false} ClaimsAreAccountedFor(created: Time, moves: seq<Move>, maxAttempts: int)
    ensures var s := Run(Created(created), moves, maxAttempts);
            && Consistent(s, maxAttempts)
            && s.row.lease.version - 1
               == s.row.payload.attemptCount + s.takeovers
                  + Flag(s.row.payload.status.Done?) + Flag(s.row.payload.status.InFlight?)
            && (!Terminal(s) ==> s.row.payload.attemptCount < Budget(maxAttempts))
  {
    if moves != [] {
      ClaimsAreAccountedFor(created, moves[..|moves| - 1], maxAttempts);
      StepKeepsConsistent(Run(Created(created), moves[..|moves| - 1], maxAttempts), moves[|moves| - 1], maxAttempts);
    }
  }

  /** The number of claims is bounded by the attempt budget and the takeovers. */
  lemma ClaimsAreBounded(created: Time, moves: seq<Move>, maxAttempts: int)
    ensures var s := Run(Created(created), moves, maxAttempts);
            s.row.lease.version - 1 <= Budget(maxAttempts) + s.takeovers
  {
    ClaimsAreAccountedFor(created, moves, maxAttempts);
  }

  /** DONE and DEAD_LETTER are final: no worker, however late, changes the row again. */
  lemma {:induction false} TerminalIsForever(s: EventState, moves: seq<Move>, maxAttempts: int)
    requires Consistent(s, maxAttempts) && Terminal(s)
    ensures Run(s, moves, maxAttempts) == s
  {
    if moves != [] {
      TerminalIsForever(s, moves[..|moves| - 1], maxAttempts);
    }
  }

  /** A failure that is not the last of the budget leaves the event retryable; only a spent budget
      or an unrecoverable error dead-letters. */
  lemma OneFailureNeverDeadLetters(s: EventState, m: Move, maxAttempts: int)
    requires Consistent(s, maxAttempts) && Effective(s, m, maxAttempts) && m.Fail?
    ensures var after := Step(s, m, maxAttempts).row.payload;
            && after.attemptCount == s.row.payload.attemptCount + 1
            && (after.status.DeadLetter? <==> after.attemptCount >= maxAttempts)
            && (!after.status.DeadLetter? ==> after.status.Pending? && after.nextAttemptAt == m.now + m.delay)
  {
  }

  /** A claim only happens on a clock that has reached the retry time. */
  lemma RetriesWaitForTheirBackoff(s: EventState, fail: Move, claim: Move, maxAttempts: int)
    requires Effective(s, fail, maxAttempts) && fail.Fail? && claim.Claim?
    requires Effective(Step(s, fail, maxAttempts), claim, maxAttempts)
    ensures fail.now + fail.delay <= claim.now
  {
  }

  // --- the row is a fenced register -----------------------------------------------------

  function StatementAt(s: EventState, moves: seq<Move>, i: nat, maxAttempts: int): Op<OutboxColumns>
    requires i < |moves|
  {
    var now := Run(s, moves[..i], maxAttempts);
    if Possible(now, moves[i]) then MoveOp(now, moves[i], maxAttempts) else Skip
  }

  function Statements(s: EventState, moves: seq<Move>, maxAttempts: int): (ops: seq<Op<OutboxColumns>>)
    ensures |ops| == |moves| && forall i :: 0 <= i < |ops| ==> ops[i] == StatementAt(s, moves, i, maxAttempts)
  {
    seq(|moves|, i requires 0 <= i < |moves| => StatementAt(s, moves, i, maxAttempts))
  }

  lemma RowAfterStep(s: EventState, m: Move, maxAttempts: int)
    ensures Step(s, m, maxAttempts).row == Apply(s.row, if Possible(s, m) then MoveOp(s, m, maxAttempts) else Skip)
  {
    hide MoveOp, Possible;
  }

  lemma {:induction false} RowIsTheRegister(s: EventState, moves: seq<Move>, n: nat, maxAttempts: int)
    requires n <= |moves|
    ensures Run(s, moves[..n], maxAttempts).row == At(s.row, Statements(s, moves, maxAttempts), n)
  {
    hide Step, Apply, MoveOp, Possible;
    if n > 0 {
      RowIsTheRegister(s, moves, n - 1, maxAttempts);
      assert moves[..n][..n - 1] == moves[..n - 1];
      RowAfterStep(Run(s, moves[..n - 1], maxAttempts), moves[n - 1], maxAttempts);
    }
  }

  lemma VersionsGrow(s: EventState, moves: seq<Move>, maxAttempts: int)
    ensures s.row.lease.version <= Run(s, moves, maxAttempts).row.lease.version
  {
    assert moves[..|moves|] == moves;
    RowIsTheRegister(s, moves, |moves|, maxAttempts);
    VersionNeverDecreases(s.row, Statements(s, moves, maxAttempts), 0, |moves|);
  }

  /** Move i claimed the event under this version. */
  predicate ClaimedAs(s: EventState, moves: seq<Move>, i: nat, worker: Worker, version: nat, maxAttempts: int)
    requires i < |moves|
  {
    && moves[i].Claim? && moves[i].worker == worker
    && Effective(Run(s, moves[..i], maxAttempts), moves[i], maxAttempts)
    && Run(s, moves[..i + 1], maxAttempts).row.lease.version == version
  }

  lemma ClaimsAreGrants(s: EventState, moves: seq<Move>, i: nat, maxAttempts: int)
    requires i < |moves|
    ensures var ops := Statements(s, moves, maxAttempts);
            && (Grants(s.row, ops, i) <==> ClaimedAs(s, moves, i, moves[i].worker,
                    Run(s, moves[..i + 1], maxAttempts).row.lease.version, maxAttempts))
            && (Grants(s.row, ops, i) ==>
                  ops[i].worker == moves[i].worker
                  && GrantedVersion(s.row, ops, i) == Run(s, moves[..i + 1], maxAttempts).row.lease.version)
  {
    hide Run, Accepts, Apply;
    RowIsTheRegister(s, moves, i, maxAttempts);
    RowIsTheRegister(s, moves, i + 1, maxAttempts);
  }

  lemma SettlementsAreWrites(s: EventState, moves: seq<Move>, k: nat, maxAttempts: int)
    requires k < |moves| && !moves[k].Claim? && Effective(Run(s, moves[..k], maxAttempts), moves[k], maxAttempts)
    ensures var ops := Statements(s, moves, maxAttempts);
            && ops[k].Write? && ops[k].worker == moves[k].worker && ops[k].version == moves[k].version
            && Accepts(At(s.row, ops, k), ops[k])
  {
    RowIsTheRegister(s, moves, k, maxAttempts);
  }

  /** A worker settles only the claim it was granted itself: a completion, failure or dead-letter that
      takes effect comes after one claim of the same worker under the same version, the only claim in the
      whole run under that version. */
  lemma OnlyTheClaimantSettles(created: Time, moves: seq<Move>, k: nat, maxAttempts: int)
    requires k < |moves| && !moves[k].Claim?
    requires Effective(Run(Created(created), moves[..k], maxAttempts), moves[k], maxAttempts)
    ensures var s, v := Created(created), moves[k].version;
            && (exists i :: 0 <= i < k && ClaimedAs(s, moves, i, moves[k].worker, v, maxAttempts))
            && (forall i, w :: 0 <= i < |moves| && ClaimedAs(s, moves, i, w, v, maxAttempts) ==>
                  i < k && w == moves[k].worker)
  {
    hide Run, Effective, Statements, At, Grants, GrantedVersion, HeldSince, ClaimedAs, Accepts;
    var s := Created(created);
    var ops := Statements(s, moves, maxAttempts);
    SettlementsAreWrites(s, moves, k, maxAttempts);
    EveryEffectiveWriteIsTheHolders(s.row, ops, k);
    var i: nat :| IsTheGrantOf(s.row, ops, i, k);
    HeldSinceMeans(s.row, ops, i, k);
    ClaimsAreGrants(s, moves, i, maxAttempts);
    forall g, w | 0 <= g < |moves| && ClaimedAs(s, moves, g, w, moves[k].version, maxAttempts)
      ensures g < k && w == moves[k].worker
    {
      ClaimedAsMeans(s, moves, g, w, moves[k].version, maxAttempts);
      ClaimsAreGrants(s, moves, g, maxAttempts);
    }
  }

  lemma HeldSinceMeans(r: Register<OutboxColumns>, ops: seq<Op<OutboxColumns>>, i: nat, n: nat)
    requires n <= |ops| && HeldSince(r, ops, i, n)
    ensures i < n && Grants(r, ops, i)
  {
  }

  lemma ClaimedAsMeans(s: EventState, moves: seq<Move>, i: nat, worker: Worker, version: nat, maxAttempts: int)
    requires i < |moves| && ClaimedAs(s, moves, i, worker, version, maxAttempts)
    ensures moves[i].Claim? && moves[i].worker == worker
    ensures Run(s, moves[..i + 1], maxAttempts).row.lease.version == version
  {
  }

  /** Once a newer claim was granted, nothing an older claimant does touches the row. */
  lemma OvertakenClaimantsAreFenced(s: EventState, moves: seq<Move>, i: nat, k: nat, worker: Worker, version: nat,
        maxAttempts: int)
    requires i < k < |moves| && ClaimedAs(s, moves, i, worker, version, maxAttempts)
    requires !moves[k].Claim? && moves[k].version < version
    ensures Run(s, moves[..k + 1], maxAttempts).row == Run(s, moves[..k], maxAttempts).row
  {
    hide Run, Effective, Statements, Grants, GrantedVersion, ClaimedAs, At, StatementAt;
    var ops := Statements(s, moves, maxAttempts);
    ClaimedAsMeans(s, moves, i, worker, version, maxAttempts);
    ClaimsAreGrants(s, moves, i, maxAttempts);
    RowIsTheRegister(s, moves, k, maxAttempts);
    RowIsTheRegister(s, moves, k + 1, maxAttempts);
    WhatIsWritten(s, moves, k, maxAttempts);
    if ops[k].Write? {
      StaleWritesAreFenced(s.row, ops, i, k);
    } else {
      SkipChangesNothing(s.row, ops, k);
    }
  }

  lemma WhatIsWritten(s: EventState, moves: seq<Move>, k: nat, maxAttempts: int)
    requires k < |moves| && !moves[k].Claim?
    ensures var op := Statements(s, moves, maxAttempts)[k];
            op.Skip? || (op.Write? && op.version == moves[k].version)
  {
    hide Run;
  }

  lemma SkipChangesNothing(r: Register<OutboxColumns>, ops: seq<Op<OutboxColumns>>, k: nat)
    requires k < |ops| && ops[k].Skip?
    ensures At(r, ops, k + 1) == At(r, ops, k)
  {
  }

  /** A worker whose lease ran out still completes its event if nobody was granted it since. */
  lemma OverdueClaimantStillCompletes(s: EventState, moves: seq<Move>, i: nat, worker: Worker, version: nat,
        now: Time, maxAttempts: int)
    requires i < |moves| && ClaimedAs(s, moves, i, worker, version, maxAttempts)
    requires forall k :: i < k < |moves| ==>
               moves[k].Claim? && !Effective(Run(s, moves[..k], maxAttempts), moves[k], maxAttempts)
    ensures Effective(Run(s, moves, maxAttempts), Complete(worker, version, now), maxAttempts)
  {
    var ops := Statements(s, moves, maxAttempts);
    RowIsTheRegister(s, moves, i, maxAttempts);
    RowIsTheRegister(s, moves, i + 1, maxAttempts);
    RowIsTheRegister(s, moves, |moves|, maxAttempts);
    assert moves[..|moves|] == moves;
    forall k | i < k < |ops| ensures !Grants(s.row, ops, k) {
      RowIsTheRegister(s, moves, k, maxAttempts);
    }
    OverdueHolderStillWrites(s.row, ops, i, UpdateStatusOp(worker, version, now, Done, None, None));
  }

  /** A claim keeps every other worker out for its duration and no longer: as long as its worker has not
      settled it and no clock has passed its end, another claim is granted exactly to a clock that has. */
  lemma ClaimLastsItsDuration(s: EventState, moves: seq<Move>, i: nat, worker: Worker, version: nat, claim: Move,
        maxAttempts: int)
    requires i < |moves| && ClaimedAs(s, moves, i, worker, version, maxAttempts) && claim.Claim?
    requires forall k :: i < k < |moves| ==>
               if moves[k].Claim? then moves[k].now <= moves[i].now + moves[i].duration else moves[k].version != version
    ensures Effective(Run(s, moves, maxAttempts), claim, maxAttempts) <==>
              moves[i].now + moves[i].duration < claim.now
              && Run(s, moves[..i + 1], maxAttempts).row.payload.nextAttemptAt <= claim.now
    ensures Run(s, moves, maxAttempts).row.payload.status.InFlight?
  {
    var ops := Statements(s, moves, maxAttempts);
    ClaimsAreGrants(s, moves, i, maxAttempts);
    RowIsTheRegister(s, moves, i, maxAttempts);
    RowIsTheRegister(s, moves, i + 1, maxAttempts);
    RowIsTheRegister(s, moves, |moves|, maxAttempts);
    assert moves[..|moves|] == moves;
    assert At(s.row, ops, i + 1).payload.status.InFlight?;
    hide Run;
    TakenOverIffExpired(s.row, ops, i, AcquireOutboxOp(claim.worker, claim.now, claim.duration));
  }

  // --- queue job ids --------------------------------------------------------------------

  function Digit(d: nat): char
    requires d < 10
  {
    ['0', '1', '2', '3', '4', '5', '6', '7', '8', '9'][d]
  }

  function Decimal(n: nat): (s: string)
    ensures s != "" && ':' !in s
  {
    if n < 10 then [Digit(n)] else Decimal(n / 10) + [Digit(n % 10)]
  }

  lemma {:induction false} DecimalIsInjective(m: nat, n: nat)
    requires Decimal(m) == Decimal(n)
    ensures m == n
  {
    var s, t := Decimal(m), Decimal(n);
    assert s[|s| - 1] == Digit(m % 10) && t[|t| - 1] == Digit(n % 10);
    assert |s| == 1 <==> m < 10;
    assert |t| == 1 <==> n < 10;
    if m >= 10 {
      assert s[..|s| - 1] == Decimal(m / 10) && t[..|t| - 1] == Decimal(n / 10);
      DecimalIsInjective(m / 10, n / 10);
    }
  }

  /** The number that a string of decimal digits writes. */
  function NumberOf(s: string): int {
    if s == "" then 0 else 10 * NumberOf(s[..|s| - 1]) + (s[|s| - 1] as int - 48)
  }

  /** Decimal writes each number in digits and without a leading zero. */
  lemma {:induction false} DecimalReads(n: nat)
    ensures var s := Decimal(n);
            && NumberOf(s) == n && s != "" && (s[0] as int == 48 ==> n == 0 && |s| == 1)
            && forall i :: 0 <= i < |s| ==> 48 <= s[i] as int <= 57
  {
    var s := Decimal(n);
    var front := s[..|s| - 1];
    if n >= 10 {
      DecimalReads(n / 10);
      assert front == Decimal(n / 10);
    } else {
      assert front == "" && NumberOf("") == 0;
    }
  }

  /** "<kind>:<id>:<number>", as the outbox and the embedding job ids are spelled. */
  function JobId(kind: string, id: string, number: nat): string {
    kind + ":" + id + ":" + Decimal(number)
  }

  /** The two job ids of a pipeline: an outbox claim and an embedding. */
  lemma JobIdsAreSpelled(id: string, number: nat)
    ensures exists digits :: NumberOf(digits) == number && digits == Decimal(number)
                             && JobId("outbox", id, number) == "outbox:" + id + ":" + digits
                             && JobId("embed", id, number) == "embed:" + id + ":" + digits
  {
    DecimalReads(number);
    var digits := Decimal(number);
    assert "outbox" + ":" + id + ":" + digits == "outbox:" + id + ":" + digits;
    assert "embed" + ":" + id + ":" + digits == "embed:" + id + ":" + digits;
  }

  lemma SplitAtColon(a: string, b: string, x: string, y: string)
    requires ':' !in a && ':' !in b && a + ":" + x == b + ":" + y
    ensures a == b && x == y
  {
    var s := a + ":" + x;
    var t := b + ":" + y;
    assert s[|a|] == ':' && t[|b|] == ':';
    assert forall i :: 0 <= i < |a| ==> s[i] == a[i] != ':';
    assert forall i :: 0 <= i < |b| ==> t[i] == b[i] != ':';
    assert |a| == |b|;
    assert s[..|a|] == a && t[..|b|] == b;
    assert s[|a| + 1..] == x && t[|b| + 1..] == y;
  }

  /** Job ids name their subject and number: no two (id, number) pairs share one, since neither a
      UUID nor a decimal contains a colon. */
  lemma JobIdsAreInjective(kind: string, id: string, number: nat, id': string, number': nat)
    requires ':' !in id && ':' !in id'
    requires JobId(kind, id, number) == JobId(kind, id', number')
    ensures id == id' && number == number'
  {
    var p := kind + ":";
    assert JobId(kind, id, number) == p + (id + ":" + Decimal(number));
    assert JobId(kind, id', number') == p + (id' + ":" + Decimal(number'));
    assert JobId(kind, id, number)[|p|..] == id + ":" + Decimal(number);
    assert JobId(kind, id', number')[|p|..] == id' + ":" + Decimal(number');
    SplitAtColon(id, id', Decimal(number), Decimal(number'));
    DecimalIsInjective(number, number');
  }

  /** Two poller ticks that see the same event collapse onto one queue entry exactly when no claim
      was granted between them: the second id is fresh if and only if some move was a claim. */
  lemma ReclaimsGetFreshJobIds(eventId: string, s: EventState, moves: seq<Move>, maxAttempts: int)
    requires ':' !in eventId
    ensures var later := Run(s, moves, maxAttempts);
            JobId("outbox", eventId, later.row.lease.version) != JobId("outbox", eventId, s.row.lease.version)
            <==> exists i :: 0 <= i < |moves| && Claimed(s, moves, i, maxAttempts)
  {
    ClaimsRaiseTheVersion(s, moves, maxAttempts);
    VersionsGrow(s, moves, maxAttempts);
    var later := Run(s, moves, maxAttempts);
    if JobId("outbox", eventId, later.row.lease.version) == JobId("outbox", eventId, s.row.lease.version) {
      JobIdsAreInjective("outbox", eventId, later.row.lease.version, eventId, s.row.lease.version);
    }
  }

  predicate Claimed(s: EventState, moves: seq<Move>, i: nat, maxAttempts: int)
    requires i < |moves|
  {
    moves[i].Claim? && Effective(Run(s, moves[..i], maxAttempts), moves[i], maxAttempts)
  }

  lemma ClaimedInPrefix(s: EventState, moves: seq<Move>, i: nat, n: nat, maxAttempts: int)
    requires i < n <= |moves|
    ensures Claimed(s, moves[..n], i, maxAttempts) == Claimed(s, moves, i, maxAttempts)
  {
    assert moves[..n][..i] == moves[..i];
  }

  /** One more move raises the version exactly when it is a claim. */
  lemma OnlyClaimsRaise(s: EventState, moves: seq<Move>, n: nat, maxAttempts: int)
    requires n < |moves|
    ensures Run(s, moves[..n + 1], maxAttempts).row.lease.version
            == Run(s, moves[..n], maxAttempts).row.lease.version + Flag(Claimed(s, moves, n, maxAttempts))
  {
    assert moves[..n + 1][..n] == moves[..n];
  }

  lemma {:induction false} ClaimsRaiseTheVersion(s: EventState, moves: seq<Move>, maxAttempts: int)
    ensures Run(s, moves, maxAttempts).row.lease.version > s.row.lease.version
            <==> exists i :: 0 <= i < |moves| && Claimed(s, moves, i, maxAttempts)
  {
    hide Claimed, Step;
    if moves != [] {
      var n := |moves| - 1;
      var front := moves[..n];
      ClaimsRaiseTheVersion(s, front, maxAttempts);
      VersionsGrow(s, front, maxAttempts);
      OnlyClaimsRaise(s, moves, n, maxAttempts);
      assert moves[..n + 1] == moves;
      if i :| 0 <= i < n && Claimed(s, front, i, maxAttempts) {
        ClaimedInPrefix(s, moves, i, n, maxAttempts);
        assert Claimed(s, moves, i, maxAttempts);
      }
      if i :| 0 <= i < n && Claimed(s, moves, i, maxAttempts) {
        ClaimedInPrefix(s, moves, i, n, maxAttempts);
        assert Claimed(s, front, i, maxAttempts);
      }
    }
  }

  // --- backoff --------------------------------------------------------------------------

  function Power2(n: nat): nat { if n == 0 then 1 else 2 * Power2(n - 1) }

  function BackoffDelay(attempt: int, baseSeconds: real, maxSeconds: real): real {
    var delay := baseSeconds * Power2(if attempt < 1 then 0 else attempt - 1) as real;
    if delay < maxSeconds then delay else maxSeconds
  }

  /** The delay starts at the base, never exceeds the ceiling, never shrinks, and doubles until the
      ceiling is met. */
  lemma BackoffDoublesUpToItsCeiling(attempt: nat, baseSeconds: real, maxSeconds: real)
    requires baseSeconds >= 0.0 && attempt >= 1
    ensures BackoffDelay(1, baseSeconds, maxSeconds) == if baseSeconds < maxSeconds then baseSeconds else maxSeconds
    ensures BackoffDelay(attempt, baseSeconds, maxSeconds) <= maxSeconds
    ensures BackoffDelay(attempt, baseSeconds, maxSeconds) <= BackoffDelay(attempt + 1, baseSeconds, maxSeconds)
    ensures BackoffDelay(attempt + 1, baseSeconds, maxSeconds) < maxSeconds
            ==> BackoffDelay(attempt + 1, baseSeconds, maxSeconds)
                == 2.0 * BackoffDelay(attempt, baseSeconds, maxSeconds)
  {
    assert Power2(0) == 1;
    var p := Power2(attempt - 1) as real;
    assert Power2(attempt) as real == 2.0 * p;
    assert baseSeconds * (2.0 * p) == 2.0 * (baseSeconds * p);
    assert baseSeconds * p >= 0.0;
  }
}
