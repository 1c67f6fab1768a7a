/** The embedding backfill of one tenant: keyset pages over the message table with a durable
    checkpoint, restarted after any failure or crash. The table is fixed while it runs. */
module Backfill {
  import opened Leases

  type Id = nat

  // --- the query ------------------------------------------------------------------------

  datatype MessageRow = MessageRow(id: Id, isDeleted: bool)

  predicate Ascending(ids: seq<Id>) {
    forall i, j :: 0 <= i < j < |ids| ==> ids[i] < ids[j]
  }

  /** Insert into an ascending list; an id that is there already stays single. */
  function Insert(id: Id, ids: seq<Id>): (r: seq<Id>)
    requires Ascending(ids)
    ensures Ascending(r)
    ensures forall x :: x in r <==> x == id || x in ids
  {
    if ids == [] then [id]
    else if id < ids[0] then [id] + ids
    else if id == ids[0] then ids
    else
      var rest := Insert(id, ids[1..]);
      assert forall x :: x in ids[1..] ==> x > ids[0];
      assert forall i :: 0 <= i < |rest| ==> rest[i] in rest;
      [ids[0]] + rest
  }

  predicate Selected(row: MessageRow, cursor: Option<Id>) {
    !row.isDeleted && (cursor.Some? ==> row.id > cursor.value)
  }

  /** Live messages beyond the cursor, in id order. */
  function Beyond(table: seq<MessageRow>, cursor: Option<Id>): (r: seq<Id>)
    ensures Ascending(r)
    ensures forall x :: x in r <==> exists k :: 0 <= k < |table| && Selected(table[k], cursor) && table[k].id == x
  {
    if table == [] then []
    else
      var last := table[|table| - 1];
      var front := table[..|table| - 1];
      var rest := Beyond(front, cursor);
      assert forall k :: 0 <= k < |table| ==> (if k < |front| then table[k] == front[k] else table[k] == last);
      if Selected(last, cursor) then
        assert Selected(table[|table| - 1], cursor);
        Insert(last.id, rest)
      else rest
  }

  function FetchBatch(table: seq<MessageRow>, cursor: Option<Id>, limit: nat): (batch: seq<Id>)
    ensures batch <= Beyond(table, cursor)
    ensures |batch| <= limit && (|batch| < limit ==> batch == Beyond(table, cursor))
  {
    var ids := Beyond(table, cursor);
    if |ids| <= limit then ids else ids[..limit]
  }

  lemma {:induction false} AscendingListsAreEqual(a: seq<Id>, b: seq<Id>)
    requires Ascending(a) && Ascending(b) && forall x :: x in a <==> x in b
    ensures a == b
  {
    assert a == [] <==> b == [] by {
      if a != [] { assert a[0] in a; }
      if b != [] { assert b[0] in b; }
    }
    if a != [] {
      assert a[0] in b && b[0] in a;
      forall x ensures x in a[1..] <==> x in b[1..] {
        if x in a[1..] { assert x in a; }
        if x in b[1..] { assert x in b; }
      }
      AscendingListsAreEqual(a[1..], b[1..]);
      assert a == [a[0]] + a[1..] && b == [b[0]] + b[1..];
    }
  }

  /** Keyset paging loses nothing and repeats nothing: beyond the last id of a prefix lies exactly the
      rest. */
  lemma RestIsBeyondTheCursor(table: seq<MessageRow>, n: nat)
    requires 0 < n <= |Beyond(table, None)|
    ensures Beyond(table, Some(Beyond(table, None)[n - 1])) == Beyond(table, None)[n..]
  {
    var all := Beyond(table, None);
    var cursor := all[n - 1];
    var rest := Beyond(table, Some(cursor));
    forall x ensures x in rest <==> x in all[n..] {
      if x in rest {
        var k :| 0 <= k < |table| && Selected(table[k], Some(cursor)) && table[k].id == x;
        assert Selected(table[k], None);
        assert x in all && x > cursor;
        var i :| 0 <= i < |all| && all[i] == x;
        assert i >= n;
        assert all[n..][i - n] == x;
      }
      if x in all[n..] {
        assert x in all && x > cursor;
        var k :| 0 <= k < |table| && Selected(table[k], None) && table[k].id == x;
        assert Selected(table[k], Some(cursor));
      }
    }
    AscendingListsAreEqual(rest, all[n..]);
  }

  // --- progress -------------------------------------------------------------------------

  datatype Status = NotStarted | InProgress | Completed | Failed | Cancelled

  datatype Progress = Progress(status: Status, cursor: Option<Id>, processed: nat, embedded: nat, skipped: nat,
      failed: nat)

  /** What became of a message. */
  datatype Fate = Embedded | Skipped | Unembedded

  datatype Entry = Entry(id: Id, fate: Fate)

  function Ids(entries: seq<Entry>): (r: seq<Id>)
    ensures |r| == |entries| && forall i :: 0 <= i < |entries| ==> r[i] == entries[i].id
  {
    seq(|entries|, i requires 0 <= i < |entries| => entries[i].id)
  }

  function Count(entries: seq<Entry>, fate: Fate): nat {
    if entries == [] then 0
    else Count(entries[..|entries| - 1], fate) + (if entries[|entries| - 1].fate == fate then 1 else 0)
  }

  lemma CountAppends(entries: seq<Entry>, e: Entry, fate: Fate)
    ensures Count(entries + [e], fate) == Count(entries, fate) + (if e.fate == fate then 1 else 0)
  {
    assert (entries + [e])[..|entries|] == entries;
  }

  /** The counters are those of the messages dealt with so far. */
  ghost predicate Counts(p: Progress, entries: seq<Entry>) {
    && p.processed == |entries|
    && p.embedded == Count(entries, Embedded) && p.skipped == Count(entries, Skipped)
        && p.failed == Count(entries, Unembedded)
  }

  /** The committed batches are the first live messages in id order, each once, and the cursor and the
      counters say so. */
  ghost predicate Exact(table: seq<MessageRow>, p: Progress, entries: seq<Entry>) {
    && Ids(entries) <= Beyond(table, None)
    && Counts(p, entries)
    && p.cursor == (if entries == [] then None else Some(entries[|entries| - 1].id))
    && Beyond(table, p.cursor) == Beyond(table, None)[|entries|..]
  }

  lemma {:induction false} CountersAddUp(entries: seq<Entry>)
    ensures Count(entries, Embedded) + Count(entries, Skipped) + Count(entries, Unembedded) == |entries|
  {
    if entries != [] {
      CountersAddUp(entries[..|entries| - 1]);
    }
  }

  lemma {:induction false} AllUnembedded(entries: seq<Entry>, more: seq<Entry>, fate: Fate)
    requires forall i :: 0 <= i < |more| ==> more[i].fate.Unembedded?
    ensures Count(entries + more, fate) == Count(entries, fate) + (if fate.Unembedded? then |more| else 0)
  {
    if more == [] {
      assert entries + more == entries;
    } else {
      var n := |more| - 1;
      AllUnembedded(entries, more[..n], fate);
      assert (entries + more)[..|entries| + n] == entries + more[..n];
    }
  }

  /** At every commit: the messages dealt with are exactly the live ones up to the cursor, each counted
      once and under one heading. */
  lemma CheckpointIsExact(table: seq<MessageRow>, p: Progress, entries: seq<Entry>)
    requires Exact(table, p, entries)
    ensures p.processed == |entries| == p.embedded + p.skipped + p.failed
    ensures forall x: Id :: x in Ids(entries) <==> IsLive(table, x) && p.cursor.Some? && x <= p.cursor.value
    ensures forall x :: x in Ids(entries) <==> x in Beyond(table, None) && p.cursor.Some? && x <= p.cursor.value
    ensures Ascending(Ids(entries))
  {
    CountersAddUp(entries);
    AllThatIsLive(table);
    var all, done := Beyond(table, None), Ids(entries);
    forall x ensures x in done <==> x in all && p.cursor.Some? && x <= p.cursor.value {
      if x in done {
        var i :| 0 <= i < |done| && done[i] == x;
        assert all[i] == x && all[|done| - 1] == done[|done| - 1];
      }
      if x in all && p.cursor.Some? && x <= p.cursor.value {
        var i :| 0 <= i < |all| && all[i] == x;
        assert all[|done| - 1] == done[|done| - 1] == p.cursor.value;
        assert i < |done| && done[i] == x;
      }
    }
  }

  /** A message that is not deleted. */
  ghost predicate IsLive(table: seq<MessageRow>, id: Id) {
    exists k :: 0 <= k < |table| && !table[k].isDeleted && table[k].id == id
  }

  lemma AllThatIsLive(table: seq<MessageRow>)
    ensures forall x: Id :: x in Beyond(table, None) <==> IsLive(table, x)
  {
    forall x: Id | IsLive(table, x) ensures x in Beyond(table, None) {
      var k :| 0 <= k < |table| && !table[k].isDeleted && table[k].id == x;
      assert Selected(table[k], None);
    }
  }

  lemma NothingIsExact(table: seq<MessageRow>, p: Progress)
    requires p.cursor.None? && p.processed == p.embedded == p.skipped == p.failed == 0
    ensures Exact(table, p, [])
  {
  }

  /** A batch is the next stretch of the whole list. */
  lemma BatchIsNext(all: seq<Id>, n: nat, batch: seq<Id>)
    requires n <= |all| && batch <= all[n..]
    ensures all[..n] + batch == all[..n + |batch|]
  {
  }

  /** One more batch, dealt with and checkpointed. */
  lemma BatchKeepsExact(table: seq<MessageRow>, p: Progress, entries: seq<Entry>, limit: nat, q: Progress,
      more: seq<Entry>)
    requires Exact(table, p, entries) && FetchBatch(table, p.cursor, limit) != []
    requires Ids(more) == FetchBatch(table, p.cursor, limit) && Counts(q, entries + more)
    requires q.cursor == Some(more[|more| - 1].id)
    ensures Exact(table, q, entries + more)
    ensures |Beyond(table, q.cursor)| < |Beyond(table, p.cursor)|
  {
    hide Beyond, Counts;
    var all, n, m := Beyond(table, None), |entries|, |entries| + |more|;
    assert Ids(entries) == all[..n];
    BatchIsNext(all, n, Ids(more));
    assert Ids(entries + more) == Ids(entries) + Ids(more);
    hide FetchBatch;
    assert all[..m][m - 1] == more[|more| - 1].id;
    RestIsBeyondTheCursor(table, m);
  }

  lemma StatusIsNoMatter(table: seq<MessageRow>, p: Progress, q: Progress, entries: seq<Entry>)
    requires Exact(table, p, entries) && q == p.(status := q.status)
    ensures Exact(table, q, entries) && Counts(p, entries)
  {
    hide Beyond;
  }

  lemma LimitIsPositive(table: seq<MessageRow>, cursor: Option<Id>, limit: nat)
    requires FetchBatch(table, cursor, limit) != []
    ensures limit > 0
  {
  }

  lemma NothingLeft(table: seq<MessageRow>, p: Progress, entries: seq<Entry>, limit: nat)
    requires Exact(table, p, entries) && FetchBatch(table, p.cursor, limit) == [] && limit > 0
    ensures Ids(entries) == Beyond(table, None)
  {
    hide Beyond;
    assert Beyond(table, None) == Beyond(table, None)[..|entries|] + Beyond(table, None)[|entries|..];
  }

  // --- the worker -----------------------------------------------------------------------

  datatype EmbedReply = Vectors(count: nat) | Transient | Permanent
  datatype UpdateReply = Applied | Missed | Raised

  /** When a process dies around a commit. */
  datatype Death = Lives | BeforeCommit | AfterCommit

  /** What a run meets: the provider's reply to its k-th batch, the index's reply for a message, whether
      the process dies around its k-th commit, and whether the backfill is cancelled by the time it looks
      again after its k-th batch. */
  datatype World = World(embed: nat -> EmbedReply, update: (nat, Id) -> UpdateReply, dies: nat -> Death,
      cancels: nat -> bool)

  /** Counted as embedded exactly when a vector came back for it and the index accepted the call, which it
      also does when it leaves a newer document alone; skipped when the document was missing or in
      conflict. */
  function FateOf(reply: EmbedReply, i: nat, update: UpdateReply): Fate {
    if !reply.Vectors? || i >= reply.count then Unembedded
    else match update case Applied => Embedded case Missed => Skipped case Raised => Unembedded
  }

  /** The provider never asks to come back later, and nobody kills or cancels the run. */
  ghost predicate Undisturbed(world: World) {
    forall k: nat :: !world.embed(k).Transient? && world.dies(k).Lives? && !world.cancels(k)
  }

  datatype Outcome =
    | Finished | AlreadyCompleted | SkippedAsCancelled | CancelledMidRun | RaisedTransient | Died

  class EmbeddingBackfillWorker {
    const table: seq<MessageRow>
    const batchSize: nat
    /** The committed progress row. */
    var stored: Progress
    /** The row as the current run holds it. */
    var progress: Progress
    /** What the committed batches did, message by message. */
    ghost var entries: seq<Entry>

    constructor (table: seq<MessageRow>, batchSize: nat)
      ensures this.table == table && this.batchSize == batchSize && Checkpointed() && entries == []
    {
      this.table, this.batchSize, entries := table, batchSize, [];
      stored := Progress(NotStarted, None, 0, 0, 0, 0);
      progress := Progress(NotStarted, None, 0, 0, 0, 0);
      new;
      NothingIsExact(table, stored);
    }

    /** The durable checkpoint is exact, and completion means that nothing is left to fetch. */
    ghost predicate Checkpointed()
      reads this
    {
      && Exact(table, stored, entries)
      && (stored.status.Completed? ==> FetchBatch(table, stored.cursor, batchSize) == [])
    }

    method ProcessBatch(batch: seq<Id>, turn: nat, world: World) returns (ok: bool, ghost done: seq<Entry>)
      requires Counts(progress, entries)
      modifies this`progress
      ensures !ok ==> progress == old(progress) && world.embed(turn).Transient?
      ensures ok ==> Ids(done) == batch && Counts(progress, entries + done)
      ensures progress.cursor == old(progress).cursor && progress.status == old(progress).status
      ensures ok <==> !world.embed(turn).Transient?
      ensures ok ==> forall i :: 0 <= i < |done| ==>
                  var embedded := world.embed(turn).Vectors? && i < world.embed(turn).count;
                  && (done[i].fate.Embedded? <==> embedded && world.update(turn, batch[i]).Applied?)
                  && (done[i].fate.Skipped? <==> embedded && world.update(turn, batch[i]).Missed?)
      ensures ok ==> forall i :: 0 <= i < |done| ==>
                  done[i].fate == FateOf(world.embed(turn), i, world.update(turn, batch[i]))
    {
      var reply := world.embed(turn);
      done := [];
      if reply.Transient? {
        return false, done;
      }
      if reply.Permanent? {
        progress := progress.(failed := progress.failed + |batch|, processed := progress.processed + |batch|);
        done := seq(|batch|, i requires 0 <= i < |batch| => Entry(batch[i], Unembedded));
        AllUnembedded(entries, done, Embedded);
        AllUnembedded(entries, done, Skipped);
        AllUnembedded(entries, done, Unembedded);
        return true, done;
      }
      done := WriteVectors(batch, turn, world, reply);
      ok := true;
    }

    method WriteVectors(batch: seq<Id>, turn: nat, world: World, reply: EmbedReply) returns (ghost done: seq<Entry>)
      requires Counts(progress, entries) && reply.Vectors?
      modifies this`progress
      ensures Ids(done) == batch && Counts(progress, entries + done)
      ensures progress.cursor == old(progress).cursor && progress.status == old(progress).status
      ensures forall i :: 0 <= i < |done| ==> done[i].fate == FateOf(reply, i, world.update(turn, batch[i]))
    {
      hide Counts;
      done := [];
      assert entries + done == entries;
      for i := 0 to |batch|
        invariant |done| == i && Ids(done) == batch[..i] && Counts(progress, entries + done)
        invariant progress.cursor == old(progress).cursor && progress.status == old(progress).status
        invariant forall k :: 0 <= k < i ==> done[k].fate == FateOf(reply, k, world.update(turn, batch[k]))
      {
        ghost var e := Entry(batch[i], FateOf(reply, i, world.update(turn, batch[i])));
        Record(reply, i, world.update(turn, batch[i]), entries + done, e);
        assert entries + done + [e] == entries + (done + [e]);
        done := done + [e];
      }
    }

    /** The write for one message. */
    method Record(reply: EmbedReply, i: nat, update: UpdateReply, ghost before: seq<Entry>, ghost e: Entry)
      requires reply.Vectors? && Counts(progress, before) && e.fate == FateOf(reply, i, update)
      modifies this`progress
      ensures Counts(progress, before + [e])
      ensures progress.cursor == old(progress).cursor && progress.status == old(progress).status
    {
      CountAppends(before, e, Embedded);
      CountAppends(before, e, Skipped);
      CountAppends(before, e, Unembedded);
      progress := progress.(processed := progress.processed + 1);
      if i >= reply.count {
        progress := progress.(failed := progress.failed + 1);
        return;
      }
      match update {
        case Applied => progress := progress.(embedded := progress.embedded + 1);
        case Missed => progress := progress.(skipped := progress.skipped + 1);
        case Raised => progress := progress.(failed := progress.failed + 1);
      }
    }

    /** The run's k-th commit, unless the process dies first. */
    method Commit(k: nat, world: World) returns (alive: bool)
      modifies this`stored
      ensures stored == if world.dies(k).BeforeCommit? then old(stored) else progress
      ensures alive <==> world.dies(k).Lives?
    {
      if !world.dies(k).BeforeCommit? {
        stored := progress;
      }
      alive := world.dies(k).Lives?;
    }

    /** One run. Whatever happens, and wherever it dies, the checkpoint stays exact and never goes back; a
        completed backfill with a positive batch size dealt with every live message. */
    method Run(world: World) returns (outcome: Outcome)
      requires Checkpointed()
      modifies this
      ensures Checkpointed() && old(entries) <= entries
      ensures outcome.Finished? || outcome.AlreadyCompleted? ==> stored.status.Completed?
      ensures stored.status.Completed? ==> outcome.Finished? || outcome.AlreadyCompleted? || outcome.Died?
      ensures stored.status.Completed? && !old(stored).status.Completed? && batchSize > 0 ==>
                Ids(entries) == Beyond(table, None) && forall x: Id :: x in Ids(entries) <==> IsLive(table, x)
      ensures batchSize == 0 ==> entries == old(entries)
      ensures outcome.AlreadyCompleted? <==> old(stored).status.Completed?
      ensures outcome.SkippedAsCancelled? <==> old(stored).status.Cancelled?
      ensures outcome.AlreadyCompleted? || outcome.SkippedAsCancelled? ==>
                stored == old(stored)
                && entries == old(entries)
      ensures outcome.RaisedTransient? ==> stored.status.Failed?
      ensures outcome.CancelledMidRun? ==> stored.status.Cancelled?
      ensures Undisturbed(world) && !old(stored).status.Completed? && !old(stored).status.Cancelled? ==>
                outcome.Finished?
    {
      hide Exact, Beyond, FetchBatch;
      progress := stored;
      if progress.status.Completed? {
        return AlreadyCompleted;
      }
      if progress.status.Cancelled? {
        return SkippedAsCancelled;
      }
      progress := progress.(status := InProgress);
      StatusIsNoMatter(table, stored, progress, entries);
      var alive := Commit(0, world);
      if !alive {
        return Died;
      }
      var turn := 0;
      while true
        invariant progress == stored && Checkpointed() && old(entries) <= entries && stored.status.InProgress?
        invariant batchSize == 0 ==> entries == old(entries)
        invariant !old(stored).status.Completed? && !old(stored).status.Cancelled?
        decreases |Beyond(table, stored.cursor)|
      {
        var batch := FetchBatch(table, progress.cursor, batchSize);
        if batch == [] {
          break;
        }
        LimitIsPositive(table, progress.cursor, batchSize);
        StatusIsNoMatter(table, stored, progress, entries);
        var ok;
        ghost var done;
        ok, done := ProcessBatch(batch, turn, world);
        turn := turn + 1;
        if !ok {
          progress := progress.(status := Failed);
          StatusIsNoMatter(table, stored, progress, entries);
          alive := Commit(turn, world);
          return if alive then RaisedTransient else Died;
        }
        progress := progress.(cursor := Some(batch[|batch| - 1]));
        assert Ids(done)[|done| - 1] == done[|done| - 1].id;
        BatchKeepsExact(table, stored, entries, batchSize, progress, done);
        alive := Commit(turn, world);
        if !world.dies(turn).BeforeCommit? {
          entries := entries + done;
        }
        if !alive {
          return Died;
        }
        if world.cancels(turn) {
          StatusIsNoMatter(table, stored, stored.(status := Cancelled), entries);
          stored := stored.(status := Cancelled);
        }
        progress := stored;
        if progress.status.Cancelled? {
          return CancelledMidRun;
        }
      }
      progress := progress.(status := Completed);
      StatusIsNoMatter(table, stored, progress, entries);
      AllThatIsLive(table);
      if batchSize > 0 {
        NothingLeft(table, progress, entries, batchSize);
      }
      alive := Commit(turn + 1, world);
      outcome := if alive then Finished else Died;
    }

    /** Any number of attempts, through failures and crashes. */
    method Attempts(worlds: seq<World>) returns (completed: bool)
      requires Checkpointed()
      modifies this
      ensures Checkpointed() && old(entries) <= entries
      ensures completed <==> stored.status.Completed?
      ensures worlds != [] && Undisturbed(worlds[|worlds| - 1]) ==> completed || stored.status.Cancelled?
      ensures completed && !old(stored).status.Completed? && batchSize > 0 ==> Ids(entries) == Beyond(table, None)
    {
      hide Exact, Beyond, FetchBatch;
      for i := 0 to |worlds|
        invariant Checkpointed() && old(entries) <= entries
        invariant i > 0 && Undisturbed(worlds[i - 1]) ==> stored.status.Completed? || stored.status.Cancelled?
        invariant stored.status.Completed? && !old(stored).status.Completed? && batchSize > 0 ==>
                      Ids(entries) == Beyond(table, None)
      {
        var _ := Run(worlds[i]);
      }
      completed := stored.status.Completed?;
    }
  }
}
