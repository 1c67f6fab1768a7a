/** The poller that finds claimable outbox events and puts one job per claim on the queue. */
module OutboxPolling {
  import opened Leases
  import opened MailRepositories
  import opened OutboxLifecycle

  datatype Listed = Listed(id: string, row: Register<OutboxColumns>)

  /** The discovery query's own WHERE clause. */
  predicate Discoverable(row: Register<OutboxColumns>, now: Time) {
    && row.payload.status in {Pending, InFlight}
    && row.payload.nextAttemptAt <= now
    && (row.lease.lockedBy.None? || (row.lease.lockedUntil.Some? && row.lease.lockedUntil.value < now))
  }

  /** The poller and the lease agree: an event is discovered exactly when a claim by anybody, made at
      that instant, would be granted. */
  lemma DiscoveryAgreesWithTheLease(row: Register<OutboxColumns>, worker: Worker, now: Time, duration: int)
    ensures Discoverable(row, now) <==> Accepts(row, AcquireOutboxOp(worker, now, duration))
  {
  }

  /** The rows a limited query returns, in the order in which the table happens to yield them. */
  function Discovered(events: seq<Listed>, now: Time, limit: nat): (r: seq<Listed>)
    ensures |r| <= limit
    ensures forall e :: e in r ==> e in events && Discoverable(e.row, now)
    ensures |r| < limit ==> forall e :: e in events && Discoverable(e.row, now) ==> e in r
  {
    if events == [] then []
    else
      var last := events[|events| - 1];
      var rest := Discovered(events[..|events| - 1], now, limit);
      if |rest| < limit && Discoverable(last.row, now) then rest + [last] else rest
  }

  function IdsOf(found: seq<Listed>): (ids: seq<string>)
    ensures |ids| == |found| && forall i :: 0 <= i < |ids| ==> ids[i] == found[i].id
  {
    seq(|found|, i requires 0 <= i < |found| => found[i].id)
  }

  /** The events that are still there when their lease versions are read, a query later. */
  function Versioned(found: seq<Listed>, versions: map<string, nat>): (ids: seq<string>)
    ensures forall id :: id in ids <==> id in versions && exists e :: e in found && e.id == id
  {
    if found == [] then []
    else
      var front, last := found[..|found| - 1], found[|found| - 1].id;
      assert forall e :: e in found <==> e in front || e == found[|found| - 1];
      Versioned(front, versions) + (if last in versions then [last] else [])
  }

  /** Nothing is discovered or processed more often than the table lists it. */
  lemma {:induction false} ListedOnceDiscoveredOnce(events: seq<Listed>, now: Time, limit: nat)
    ensures multiset(Discovered(events, now, limit)) <= multiset(events)
  {
    if events != [] {
      ListedOnceDiscoveredOnce(events[..|events| - 1], now, limit);
      assert events == events[..|events| - 1] + [events[|events| - 1]];
    }
  }

  lemma {:induction false} DiscoveredOnceVersionedOnce(found: seq<Listed>, versions: map<string, nat>)
    ensures multiset(Versioned(found, versions)) <= multiset(IdsOf(found))
  {
    if found != [] {
      var front := found[..|found| - 1];
      DiscoveredOnceVersionedOnce(front, versions);
      assert IdsOf(found) == IdsOf(front) + [found[|found| - 1].id];
    }
  }

  function OutboxJobId(id: string, version: nat): string {
    JobId("outbox", id, version)
  }

  /** One job for the claim that each event is waiting for. */
  function JobIds(ids: seq<string>, versions: map<string, nat>): set<string> {
    set id | id in ids && id in versions :: OutboxJobId(id, versions[id])
  }

  lemma OneMoreEvent(found: seq<Listed>, versions: map<string, nat>, i: nat)
    requires i < |found|
    ensures var ids := Versioned(found[..i], versions);
            Versioned(found[..i + 1], versions) == if found[i].id in versions then ids + [found[i].id] else ids
  {
    assert found[..i + 1][..i] == found[..i];
  }

  lemma OneMoreId(ids: seq<string>, id: string, versions: map<string, nat>)
    requires id in versions
    ensures JobIds(ids + [id], versions) == JobIds(ids, versions) + {OutboxJobId(id, versions[id])}
  {
    hide OutboxJobId;
  }

  /** One tick. Discovery and the lease versions are two queries: an event may be claimed or gone in
      between. The queue refuses an id that it holds already, and what is counted is what it took; without
      a queue each event is processed on the spot, in order. */
  method Poll(events: seq<Listed>, now: Time, limit: nat, versions: map<string, nat>, queue: Option<set<string>>)
      returns (after: Option<set<string>>, processed: seq<string>, enqueued: nat)
    ensures var ids := Versioned(Discovered(events, now, limit), versions);
            if queue.None? then
              after == None && processed == ids && enqueued == |ids|
            else
              && after == Some(queue.value + JobIds(ids, versions)) && processed == []
              && |after.value| == |queue.value| + enqueued
              && (enqueued == 0 <==> JobIds(ids, versions) <= queue.value)
  {
    hide JobIds, OutboxJobId;
    var found := Discovered(events, now, limit);
    hide Discovered, Versioned;
    after, processed, enqueued := queue, [], 0;
    NoIds(found, versions);
    assert queue.Some? ==> queue.value + {} == queue.value;
    for i := 0 to |found|
      invariant queue.None? ==> after.None? && processed == Versioned(found[..i], versions) && enqueued == |processed|
      invariant queue.Some? ==>
                  && after == Some(queue.value + JobIds(Versioned(found[..i], versions), versions))
                  && processed == [] && |after.value| == |queue.value| + enqueued
    {
      var id := found[i].id;
      OneMoreEvent(found, versions, i);
      if id in versions {
        OneMoreId(Versioned(found[..i], versions), id, versions);
        if after.None? {
          processed, enqueued := processed + [id], enqueued + 1;
        } else {
          var job := OutboxJobId(id, versions[id]);
          if job in after.value {
            assert after.value + {job} == after.value;
          } else {
            enqueued := enqueued + 1;
          }
          ghost var before := JobIds(Versioned(found[..i], versions), versions);
          assert queue.value + (before + {job}) == queue.value + before + {job};
          after := Some(after.value + {job});
        }
      }
    }
    assert found[..|found|] == found;
    if queue.Some? {
      NothingNew(queue.value, JobIds(Versioned(found, versions), versions));
    }
  }

  lemma NoIds(found: seq<Listed>, versions: map<string, nat>)
    ensures Versioned(found[..0], versions) == [] && JobIds([], versions) == {}
  {
  }

  lemma NothingNew(queue: set<string>, ids: set<string>)
    ensures |queue + ids| == |queue| <==> ids <= queue
  {
    assert queue + ids == queue + (ids - queue);
    assert |queue + (ids - queue)| == |queue| + |ids - queue|;
  }

  /** Two ticks over an event that no claim came between add one job; after a claim the event is queued
      under a new id, whatever else happened to it. */
  lemma TicksCollapseUntilAClaim(id: string, s: EventState, moves: seq<Move>, maxAttempts: int, queue: set<string>)
    requires ':' !in id && OutboxJobId(id, s.row.lease.version) in queue
    requires forall q :: q in queue ==> exists v: nat :: v <= s.row.lease.version && q == JobId("outbox", id, v)
    ensures OutboxJobId(id, Run(s, moves, maxAttempts).row.lease.version) !in queue
            <==> exists i :: 0 <= i < |moves| && Claimed(s, moves, i, maxAttempts)
  {
    hide JobId, Claimed, OutboxLifecycle.Run;
    ReclaimsGetFreshJobIds(id, s, moves, maxAttempts);
    VersionsGrow(s, moves, maxAttempts);
    var later := Run(s, moves, maxAttempts).row.lease.version;
    if JobId("outbox", id, later) in queue {
      var v: nat :| v <= s.row.lease.version && JobId("outbox", id, later) == JobId("outbox", id, v);
      JobIdsAreInjective("outbox", id, later, id, v);
    }
  }
}
