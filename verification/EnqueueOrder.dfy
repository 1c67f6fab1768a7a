/** The order of the three effects of a claim: index, enqueue the embedding, finish. */
module EnqueueOrder {
  import opened OutboxLifecycle
  import opened MailData
  import opened MessageProcessing
  import opened Projection
  import opened Convergence

  ghost predicate Mentions(log: seq<Note>, k: (nat, nat)) {
    exists i :: 0 <= i < |log| && log[i].claim == k
  }

  ghost predicate HasIndexed(log: seq<Note>, k: (nat, nat)) {
    exists i :: 0 <= i < |log| && log[i] == DidIndex(k)
  }

  /** The embedding of this version was enqueued, after the document was indexed. */
  ghost predicate HasEnqueued(log: seq<Note>, k: (nat, nat), version: nat) {
    exists i, j :: 0 <= i < j < |log| && log[i] == DidIndex(k) && log[j] == DidEnqueue(k, version)
  }

  ghost predicate HasFinished(log: seq<Note>, k: (nat, nat)) {
    exists i :: 0 <= i < |log| && log[i].DidFinish? && log[i].claim == k
  }

  ghost predicate HasFailedEnqueue(log: seq<Note>, k: (nat, nat)) {
    exists i :: 0 <= i < |log| && log[i] == DidFailEnqueue(k)
  }

  /** Note n finishes its claim in good order. */
  ghost predicate InOrder(c: Config, log: seq<Note>, n: nat)
    requires n < |log|
  {
    log[n].DidFinish? ==>
      && HasIndexed(log[..n], log[n].claim)
      && (!Exempt(c, log[n].row) ==> HasEnqueued(log[..n], log[n].claim, log[n].row.version))
      && !HasFailedEnqueue(log, log[n].claim)
  }

  /** What the log says of a claim that is still being worked on. */
  ghost predicate PhaseLogged(log: seq<Note>, k: (nat, nat), p: Phase) {
    && !HasFinished(log, k)
    && (!p.EnqueueFailed? ==> !HasFailedEnqueue(log, k))
    && (p.Indexed? || p.Enqueued? ==> HasIndexed(log, k))
    && (p.Enqueued? ==> HasEnqueued(log, k, p.row.version))
  }

  ghost predicate AllInOrder(c: Config, log: seq<Note>) {
    forall n :: 0 <= n < |log| ==> InOrder(c, log, n)
  }

  ghost predicate ClaimsLogged(s: State) {
    forall k :: k in s.claims ==> PhaseLogged(s.log, k, s.claims[k])
  }

  /** Only claims that were granted are ever mentioned. */
  ghost predicate MentionsGrants(s: State) {
    forall i :: 0 <= i < |s.log| ==> s.log[i].claim.0 < |s.rows| && s.log[i].claim.1 in s.rows[s.log[i].claim.0].seen
  }

  ghost predicate DoneIsLogged(s: State) {
    forall e :: 0 <= e < |s.rows| && s.rows[e].row.payload.status.Done? ==>
      exists i :: 0 <= i < |s.log| && s.log[i].DidFinish? && s.log[i].claim.0 == e
  }

  ghost predicate LogInv(c: Config, s: State) {
    RowsConsistent(c, s) && AllInOrder(c, s.log) && ClaimsLogged(s) && MentionsGrants(s) && DoneIsLogged(s)
  }

  // --- one more note --------------------------------------------------------------------

  lemma NoteOfAnother(log: seq<Note>, note: Note, k: (nat, nat), p: Phase)
    requires PhaseLogged(log, k, p) && note.claim != k
    ensures PhaseLogged(log + [note], k, p)
  {
    var more := log + [note];
    if HasIndexed(log, k) {
      var i :| 0 <= i < |log| && log[i] == DidIndex(k);
      assert more[i] == DidIndex(k);
    }
    if p.Enqueued? {
      var i, j :| 0 <= i < j < |log| && log[i] == DidIndex(k) && log[j] == DidEnqueue(k, p.row.version);
      assert more[i] == DidIndex(k) && more[j] == DidEnqueue(k, p.row.version);
    }
  }

  /** The phase a claim is in once the note is written. */
  predicate Follows(p: Phase, note: Note, q: Phase) {
    match note
    case DidIndex(_) => p.Loaded? && q.Indexed?
    case DidEnqueue(_, v) => p.Indexed? && q.Enqueued? && q.row.version == v
    case DidFailEnqueue(_) => p.Indexed? && q.EnqueueFailed?
    case DidFinish(_, _) => false
  }

  lemma NoteOfTheClaim(log: seq<Note>, note: Note, p: Phase, q: Phase)
    requires PhaseLogged(log, note.claim, p) && Follows(p, note, q)
    ensures PhaseLogged(log + [note], note.claim, q)
  {
    var more := log + [note];
    assert more[|log|] == note;
    if HasIndexed(log, note.claim) {
      var i :| 0 <= i < |log| && log[i] == DidIndex(note.claim);
      assert more[i] == DidIndex(note.claim);
    }
  }

  /** A note keeps every earlier finish in order unless it fails the same claim's enqueue. */
  lemma OrderExtends(c: Config, log: seq<Note>, note: Note)
    requires AllInOrder(c, log)
    requires note.DidFailEnqueue? ==> !HasFinished(log, note.claim)
    requires note.DidFinish? ==>
               && HasIndexed(log, note.claim) && !HasFailedEnqueue(log, note.claim)
               && (!Exempt(c, note.row) ==> HasEnqueued(log, note.claim, note.row.version))
    ensures AllInOrder(c, log + [note])
  {
    var more := log + [note];
    forall n | 0 <= n < |more| ensures InOrder(c, more, n) {
      if n < |log| {
        assert more[..n] == log[..n] && InOrder(c, log, n);
      } else {
        assert more[..n] == log;
      }
    }
  }

  // --- steps ----------------------------------------------------------------------------

  lemma SeenGrows(s: EventState, m: Move, maxAttempts: int, v: nat)
    requires v in s.seen
    ensures v in OutboxLifecycle.Step(s, m, maxAttempts).seen
  {
  }

  ghost predicate RowsGrow(s: State, t: State) {
    |s.rows| <= |t.rows| && forall e, v :: 0 <= e < |s.rows| && v in s.rows[e].seen ==> v in t.rows[e].seen
  }

  lemma StepGrowsRows(c: Config, s: State, step: Step)
    requires Enabled(c, s, step)
    ensures RowsGrow(s, Next(c, s, step))
  {
    hide OutboxLifecycle.Step, ApplyAll, RowsNow, IndexWrite, VectorWrite, Effective;
    var t := Next(c, s, step);
    forall e, v | 0 <= e < |s.rows| && v in s.rows[e].seen ensures v in t.rows[e].seen {
      if step.ClaimEvent? {
        SeenGrows(s.rows[e], Claim(step.worker, step.now, step.duration), c.maxAttempts, v);
      } else if MovesRow(step) {
        SeenGrows(s.rows[e], MoveOf(step), c.maxAttempts, v);
      }
    }
  }

  /** A claim that is granted now was never heard of. */
  lemma NewClaimIsUnheardOf(c: Config, s: State, step: Step)
    requires LogInv(c, s) && Enabled(c, s, step) && step.ClaimEvent?
    ensures !Mentions(s.log, (step.event, s.rows[step.event].row.lease.version + 1))
  {
    assert Consistent(s.rows[step.event], c.maxAttempts);
  }

  lemma ClaimKeepsLogged(c: Config, s: State, step: Step)
    requires LogInv(c, s) && Enabled(c, s, step) && step.ClaimEvent?
    ensures ClaimsLogged(Next(c, s, step))
  {
    hide RowsConsistent, AllInOrder, MentionsGrants, DoneIsLogged;
    NewClaimIsUnheardOf(c, s, step);
  }

  predicate Quiet(step: Step) {
    step.Mutate? || Reads(step) || step.LoseAnswer? || step.GiveUp? || step.Retry? || step.Arrive? || MovesJob(step)
    || step.BackfillRead? || step.BackfillWrite?
  }

  lemma QuietKeepsLogged(c: Config, s: State, step: Step)
    requires ClaimsLogged(s) && Enabled(c, s, step) && Quiet(step)
    ensures var t := Next(c, s, step); t.log == s.log && ClaimsLogged(t)
  {
    hide ApplyAll, RowsNow, OutboxLifecycle.Step, VectorWrite, HasIndexed, HasEnqueued, HasFinished, HasFailedEnqueue;
  }

  lemma NotedKeepsLogged(c: Config, s: State, t: State, note: Note)
    requires ClaimsLogged(s) && AllInOrder(c, s.log) && t.log == s.log + [note]
    requires forall j :: j in t.claims && j != note.claim ==> j in s.claims && t.claims[j] == s.claims[j]
    requires !note.DidFinish? && note.claim in s.claims && note.claim in t.claims
    requires Follows(s.claims[note.claim], note, t.claims[note.claim])
    ensures ClaimsLogged(t) && AllInOrder(c, t.log)
  {
    hide HasIndexed, HasEnqueued, InOrder;
    OrderExtends(c, s.log, note);
    forall j | j in t.claims ensures PhaseLogged(t.log, j, t.claims[j]) {
      if j == note.claim {
        NoteOfTheClaim(s.log, note, s.claims[j], t.claims[j]);
      } else {
        NoteOfAnother(s.log, note, j, t.claims[j]);
      }
    }
  }

  lemma FinishKeepsLogged(c: Config, s: State, step: Step)
    requires ClaimsLogged(s) && AllInOrder(c, s.log) && Enabled(c, s, step) && step.Finish?
    ensures var t := Next(c, s, step); ClaimsLogged(t) && AllInOrder(c, t.log)
  {
    hide HasIndexed, HasEnqueued, HasFinished, HasFailedEnqueue, InOrder, OutboxLifecycle.Step, Effective;
    var t := Next(c, s, step);
    assert PhaseLogged(s.log, step.claim, s.claims[step.claim]);
    if t.log != s.log {
      var note := DidFinish(step.claim, s.claims[step.claim].row);
      OrderExtends(c, s.log, note);
      forall j | j in t.claims ensures PhaseLogged(t.log, j, t.claims[j]) {
        NoteOfAnother(s.log, note, j, t.claims[j]);
      }
    }
  }

  lemma StepKeepsOrder(c: Config, s: State, step: Step)
    requires LogInv(c, s) && Enabled(c, s, step)
    ensures var t := Next(c, s, step); ClaimsLogged(t) && AllInOrder(c, t.log)
  {
    hide PhaseLogged, InOrder, RowsConsistent, MentionsGrants, DoneIsLogged, OutboxLifecycle.Step, Effective,
         ApplyAll, RowsNow, IndexWrite, VectorWrite;
    var t := Next(c, s, step);
    if Quiet(step) {
      QuietKeepsLogged(c, s, step);
    } else if step.ClaimEvent? {
      ClaimKeepsLogged(c, s, step);
    } else if step.Finish? {
      FinishKeepsLogged(c, s, step);
    } else {
      NotedKeepsLogged(c, s, t, t.log[|s.log|]);
    }
  }

  /** A step notes at most one thing, about a claim that is being worked on. */
  lemma StepNotesItsClaim(c: Config, s: State, step: Step)
    requires Enabled(c, s, step)
    ensures var t := Next(c, s, step);
            t.log == s.log || exists note :: t.log == s.log + [note] && note.claim in s.claims
  {
    hide OutboxLifecycle.Step, Effective, ApplyAll, RowsNow, IndexWrite, VectorWrite, BuildDocument, LiveInput;
    var t := Next(c, s, step);
    if t.log != s.log {
      assert t.log == s.log + [t.log[|s.log|]] && t.log[|s.log|].claim in s.claims;
    }
  }

  lemma StepKeepsMentions(c: Config, s: State, step: Step)
    requires RowsConsistent(c, s) && MentionsGrants(s) && Enabled(c, s, step)
    ensures MentionsGrants(Next(c, s, step))
  {
    hide Consistent, Next, Enabled;
    StepGrowsRows(c, s, step);
    StepNotesItsClaim(c, s, step);
    var t := Next(c, s, step);
    forall i | 0 <= i < |t.log| ensures t.log[i].claim.0 < |t.rows|
        && t.log[i].claim.1 in t.rows[t.log[i].claim.0].seen {
      if i < |s.log| {
        assert t.log[i] == s.log[i];
      }
    }
  }

  lemma StepKeepsDoneLogged(c: Config, s: State, step: Step)
    requires DoneIsLogged(s) && Enabled(c, s, step)
    ensures DoneIsLogged(Next(c, s, step))
  {
    hide ApplyAll, RowsNow, IndexWrite, VectorWrite;
    var t := Next(c, s, step);
    forall e | 0 <= e < |t.rows| && t.rows[e].row.payload.status.Done?
      ensures exists i :: 0 <= i < |t.log| && t.log[i].DidFinish? && t.log[i].claim.0 == e
    {
      if e < |s.rows| && s.rows[e].row.payload.status.Done? {
        var i :| 0 <= i < |s.log| && s.log[i].DidFinish? && s.log[i].claim.0 == e;
        assert t.log[i] == s.log[i];
      } else {
        assert t.log[|s.log|].DidFinish? && t.log[|s.log|].claim.0 == e;
      }
    }
  }

  lemma {:induction false} ReachedLogInv(c: Config, steps: seq<Step>)
    ensures LogInv(c, Reached(c, steps))
  {
    hide Next, Enabled, RowsConsistent, AllInOrder, ClaimsLogged, MentionsGrants, DoneIsLogged;
    if steps == [] {
      StartLogInv(c);
    } else {
      var s, step := Reached(c, steps[..|steps| - 1]), steps[|steps| - 1];
      ReachedLogInv(c, steps[..|steps| - 1]);
      if Enabled(c, s, step) {
        RowsStayConsistent(c, s, step);
        StepKeepsOrder(c, s, step);
        StepKeepsMentions(c, s, step);
        StepKeepsDoneLogged(c, s, step);
      }
    }
  }

  lemma StartLogInv(c: Config)
    ensures LogInv(c, START)
  {
  }

  /** Enqueue before DONE: in every run, each DONE row was finished by a claim that had indexed the
      document and then, unless there is no queue or the row it read was deleted, enqueued the
      embedding of the version it read; and no claim whose enqueue failed ever finishes. */
  lemma EnqueuePrecedesDone(c: Config, steps: seq<Step>)
    ensures var s := Reached(c, steps);
            && DoneIsLogged(s)
            && (forall n :: 0 <= n < |s.log| ==> InOrder(c, s.log, n))
  {
    ReachedLogInv(c, steps);
  }

  /** The lifecycle of a single event carries over: every outbox row of a run is consistent, so its
      claims are bounded by the attempt budget and its takeovers. */
  lemma ClaimsStayBounded(c: Config, steps: seq<Step>, e: nat)
    requires e < |Reached(c, steps).rows|
    ensures var row := Reached(c, steps).rows[e];
            && Consistent(row, c.maxAttempts)
            && row.row.lease.version - 1 <= Budget(c.maxAttempts) + row.takeovers
  {
    ReachedLogInv(c, steps);
  }
}
