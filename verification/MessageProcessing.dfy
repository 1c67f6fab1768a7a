/** What a page of provider changes does to the canonical tables. */
module MessageProcessing {
  import opened Participants
  import opened MailData

  /** One change as a folder sync applies it, stamped with the folder and its resync generation. */
  datatype Change =
    | Deliver(folder: FolderId, generation: nat, message: ProviderMessage)
    | Remove(folder: FolderId, id: MessageId)
    | Reconcile(folder: FolderId, id: MessageId)

  function Target(c: Change): MessageId {
    if c.Deliver? then c.message.id else c.id
  }

  function Emit(db: Db, id: MessageId, version: nat, action: Action): Db
    requires id in db.messages
  {
    db.(messages := db.messages[id := db.messages[id].(version := version)],
        events := db.events + [Event(id, version, action)])
  }

  function FieldsOf(db: Db, id: MessageId): Fields {
    if id in db.messages then db.messages[id].fields else BLANK_FIELDS
  }

  function BagsOf(db: Db, id: MessageId): Bags {
    if id in db.participants then db.participants[id] else NO_BAGS
  }

  /** Settle a delivered message on these values: a new message becomes version 1; a stored one gets
      the next version if a value changed or the folder is new to it. */
  function Put(db: Db, folder: FolderId, g: nat, id: MessageId, fields: Fields, bags: Bags): Db {
    var row := if id in db.messages then db.messages[id] else Row(1, false, BLANK_FIELDS);
    var stored := db.(messages := db.messages[id := row.(fields := fields)],
                      participants := db.participants[id := bags],
                      memberships := db.memberships[(folder, id) := g]);
    if id !in db.messages then Emit(stored, id, 1, Created)
    else if fields != FieldsOf(db, id) || bags != BagsOf(db, id) || (folder, id) !in db.memberships then
      Emit(stored, id, row.version + 1, Updated)
    else stored
  }

  function ApplyChange(db: Db, c: Change): Db {
    match c
    case Deliver(folder, g, m) =>
      Put(db, folder, g, m.id, PatchFields(FieldsOf(db, m.id), m.patch), PatchBags(BagsOf(db, m.id), m.patch))
    case Remove(folder, id) => Drop(db, folder, id, FolderRemoved(folder))
    case Reconcile(folder, id) => Drop(db, folder, id, StaleReconciled(folder))
  }

  function Drop(db: Db, folder: FolderId, id: MessageId, action: Action): Db {
    if id in db.messages && (folder, id) in db.memberships then
      Emit(db.(memberships := db.memberships - {(folder, id)}), id, db.messages[id].version + 1, action)
    else db
  }

  function ApplyAll(db: Db, cs: seq<Change>): Db {
    if cs == [] then db else ApplyChange(ApplyAll(db, cs[..|cs| - 1]), cs[|cs| - 1])
  }

  lemma {:induction false} ApplyAllAppends(db: Db, cs: seq<Change>, ds: seq<Change>)
    ensures ApplyAll(db, cs + ds) == ApplyAll(ApplyAll(db, cs), ds)
  {
    hide ApplyChange;
    if ds == [] {
      assert cs + ds == cs;
    } else {
      var n := |ds| - 1;
      ApplyAllAppends(db, cs, ds[..n]);
      assert (cs + ds)[..|cs + ds| - 1] == cs + ds[..n];
    }
  }

  // --- a change counts exactly when the document changes --------------------------------

  lemma FoldersMembership(db: Db, id: MessageId, folder: FolderId)
    ensures folder in Folders(db, id) <==> (folder, id) in db.memberships
  {
    if (folder, id) in db.memberships {
      assert (folder, id).0 in Folders(db, id);
    }
  }

  lemma FoldersAfterPut(db: Db, folder: FolderId, g: nat, id: MessageId, fields: Fields, bags: Bags, other: MessageId)
    ensures Folders(Put(db, folder, g, id, fields, bags), other)
            == Folders(db, other) + (if id == other then {folder} else {})
  {
    var after := Put(db, folder, g, id, fields, bags);
    assert after.memberships == db.memberships[(folder, id) := g];
    forall f ensures f in Folders(after, other) <==> f in Folders(db, other) || (id == other && f == folder) {
      FoldersMembership(db, other, f);
      FoldersMembership(after, other, f);
    }
  }

  lemma FoldersAfterDrop(db: Db, folder: FolderId, id: MessageId, other: MessageId, action: Action)
    requires id in db.messages && (folder, id) in db.memberships
    ensures Folders(Drop(db, folder, id, action), other) == Folders(db, other) - (if id == other then {folder} else {})
  {
    var after := Drop(db, folder, id, action);
    forall f ensures f in Folders(after, other) <==> f in Folders(db, other) && !(id == other && f == folder) {
      FoldersMembership(db, other, f);
      FoldersMembership(after, other, f);
    }
  }

  /** A message moved from one state to the next with its version and announcements in step. */
  ghost predicate InStep(db: Db, after: Db, id: MessageId)
    requires id in db.messages && id in db.participants
  {
    && id in after.messages && id in after.participants
    && var changed := Content(after, id) != Content(db, id);
       && VersionOf(after, id) == VersionOf(db, id) + (if changed then 1 else 0)
       && Announced(after.events, id)
          == Announced(db.events, id) + (if changed then [VersionOf(after, id)] else [])
  }

  lemma PutInStep(db: Db, folder: FolderId, g: nat, target: MessageId, fields: Fields, bags: Bags, id: MessageId)
    requires Valid(db) && id in db.messages
    ensures InStep(db, Put(db, folder, g, target, fields, bags), id)
  {
    var after := Put(db, folder, g, target, fields, bags);
    FoldersAfterPut(db, folder, g, target, fields, bags, id);
    FoldersMembership(db, id, folder);
    if |after.events| > |db.events| {
      AnnouncedAppend(db.events, after.events[|db.events|], id);
    }
  }

  lemma DropInStep(db: Db, folder: FolderId, target: MessageId, action: Action, id: MessageId)
    requires Valid(db) && id in db.messages
    ensures InStep(db, Drop(db, folder, target, action), id)
  {
    if target in db.messages && (folder, target) in db.memberships {
      var after := Drop(db, folder, target, action);
      FoldersAfterDrop(db, folder, target, id, action);
      FoldersMembership(db, id, folder);
      AnnouncedAppend(db.events, after.events[|db.events|], id);
    }
  }

  /** For a message already stored: the version rises by one and one event announces it exactly when
      its searchable content changed; otherwise neither moves. */
  lemma ChangeBumpsIffContentChanges(db: Db, c: Change, id: MessageId)
    requires Valid(db) && id in db.messages
    ensures var after := ApplyChange(db, c);
            && id in after.messages && id in after.participants
            && var changed := Content(after, id) != Content(db, id);
               && VersionOf(after, id) == VersionOf(db, id) + (if changed then 1 else 0)
               && Announced(after.events, id)
                  == Announced(db.events, id) + (if changed then [VersionOf(after, id)] else [])
  {
    match c
    case Deliver(folder, g, m) =>
      PutInStep(db, folder, g, m.id, PatchFields(FieldsOf(db, m.id), m.patch), PatchBags(BagsOf(db, m.id), m.patch),
          id);
    case Remove(folder, target) => DropInStep(db, folder, target, FolderRemoved(folder), id);
    case Reconcile(folder, target) => DropInStep(db, folder, target, StaleReconciled(folder), id);
  }

  lemma PutCreates(db: Db, folder: FolderId, g: nat, target: MessageId, fields: Fields, bags: Bags, id: MessageId)
    requires Valid(db) && id !in db.messages
    ensures var after := Put(db, folder, g, target, fields, bags);
            if id == target then
              && id in after.messages && id in after.participants
              && VersionOf(after, id) == 1 && Announced(after.events, id) == [1]
              && Content(after, id) == Document(id, 0, false, fields, bags, {folder})
            else
              id !in after.messages && Announced(after.events, id) == []
  {
    var after := Put(db, folder, g, target, fields, bags);
    if |after.events| > |db.events| {
      AnnouncedAppend(db.events, after.events[|db.events|], id);
    }
    if id == target {
      FoldersAfterPut(db, folder, g, target, fields, bags, id);
      forall f ensures f !in Folders(db, id) {
        FoldersMembership(db, id, f);
      }
      assert Folders(after, id) == {folder};
    }
  }

  /** A first delivery creates version 1 and announces it; nothing else creates a message. */
  lemma CreationIsAnnounced(db: Db, c: Change, id: MessageId)
    requires Valid(db) && id !in db.messages
    ensures var after := ApplyChange(db, c);
            if c.Deliver? && c.message.id == id then
              && id in after.messages && id in after.participants
              && VersionOf(after, id) == 1 && Announced(after.events, id) == [1]
              && Content(after, id) == Document(id, 0, false, PatchFields(BLANK_FIELDS, c.message.patch),
                                                PatchBags(NO_BAGS, c.message.patch), {c.folder})
            else
              id !in after.messages && Announced(after.events, id) == []
  {
    if c.Deliver? {
      var m := c.message;
      PutCreates(db, c.folder, c.generation, m.id, PatchFields(FieldsOf(db, m.id), m.patch),
                 PatchBags(BagsOf(db, m.id), m.patch), id);
    } else {
      var after := ApplyChange(db, c);
      if |after.events| > |db.events| {
        AnnouncedAppend(db.events, after.events[|db.events|], id);
      }
    }
  }

  lemma PatchKeepsCanonical(b: Bags, p: MessagePatch)
    requires CanonicalBags(b)
    ensures CanonicalBags(PatchBags(b, p))
  {
    if p.to.Val? { BagIsCanonical(p.to.value); }
    if p.cc.Val? { BagIsCanonical(p.cc.value); }
    if p.bcc.Val? { BagIsCanonical(p.bcc.value); }
  }

  lemma ChangeKeepsValid(db: Db, c: Change)
    requires Valid(db)
    ensures Valid(ApplyChange(db, c))
  {
    hide PatchFields, PatchBags;
    var after := ApplyChange(db, c);
    forall id ensures Announced(after.events, id) == UpTo(VersionOf(after, id)) {
      if id in db.messages {
        ChangeBumpsIffContentChanges(db, c, id);
      } else {
        CreationIsAnnounced(db, c, id);
      }
    }
  }

  lemma {:induction false} RowsStayCanonical(db: Db, cs: seq<Change>)
    requires CanonicalRows(db)
    ensures CanonicalRows(ApplyAll(db, cs))
  {
    hide PatchFields, PatchBags, Canonical;
    if cs != [] {
      var n := |cs| - 1;
      RowsStayCanonical(db, cs[..n]);
      if cs[n].Deliver? {
        PatchKeepsCanonical(BagsOf(ApplyAll(db, cs[..n]), cs[n].message.id), cs[n].message.patch);
      }
    }
  }

  /** The outbox ledger: after any changes, in any folders, every message was announced once for each
      version from 1 to its current one, in order, and nothing else was announced. */
  lemma {:induction false} LedgerHolds(db: Db, cs: seq<Change>)
    requires Valid(db)
    ensures Valid(ApplyAll(db, cs))
    ensures forall id :: Announced(ApplyAll(db, cs).events, id) == UpTo(VersionOf(ApplyAll(db, cs), id))
  {
    if cs != [] {
      LedgerHolds(db, cs[..|cs| - 1]);
      ChangeKeepsValid(ApplyAll(db, cs[..|cs| - 1]), cs[|cs| - 1]);
    }
  }

  /** The searchable content is a function of (id, version): over any run a version never falls, and
      while it stands still so does the content. */
  lemma {:induction false} ContentIsAFunctionOfVersion(db: Db, cs: seq<Change>, id: MessageId)
    requires Valid(db) && id in db.messages
    ensures var after := ApplyAll(db, cs);
            && id in after.messages && id in after.participants
            && VersionOf(db, id) <= VersionOf(after, id)
            && (VersionOf(db, id) == VersionOf(after, id) ==> Projected(after, id) == Projected(db, id))
  {
    if cs != [] {
      var front := cs[..|cs| - 1];
      ContentIsAFunctionOfVersion(db, front, id);
      LedgerHolds(db, front);
      ChangeBumpsIffContentChanges(ApplyAll(db, front), cs[|cs| - 1], id);
    }
  }

  lemma {:induction false} UpToCounts(n: nat)
    ensures |UpTo(n)| == n && forall i :: 0 <= i < n ==> UpTo(n)[i] == i + 1
  {
    if n > 0 {
      UpToCounts(n - 1);
    }
  }

  lemma {:induction false} AnnouncedEarlier(events: seq<Event>, i: nat)
    requires i < |events|
    ensures |Announced(events[..i], events[i].message)| < |Announced(events, events[i].message)|
    ensures Announced(events, events[i].message)[|Announced(events[..i], events[i].message)|] == events[i].version
  {
    var n := |events| - 1;
    if i == n {
      assert events[..n] == events[..i];
    } else {
      assert events[..n][..i] == events[..i];
      AnnouncedEarlier(events[..n], i);
    }
  }

  lemma {:induction false} AnnouncedGrows(events: seq<Event>, i: nat, j: nat, id: MessageId)
    requires i <= j <= |events|
    ensures |Announced(events[..i], id)| <= |Announced(events[..j], id)|
    decreases j - i
  {
    if i < j {
      AnnouncedGrows(events, i, j - 1, id);
      assert events[..j][..j - 1] == events[..j - 1];
    }
  }

  /** The unique idempotency key of an event is its message and version, and it never collides. */
  lemma IdempotencyKeysNeverCollide(db: Db, i: nat, j: nat)
    requires Valid(db) && i < j < |db.events|
    ensures (db.events[i].message, db.events[i].version) != (db.events[j].message, db.events[j].version)
  {
    var id := db.events[i].message;
    if db.events[j].message == id {
      AnnouncedEarlier(db.events, i);
      AnnouncedEarlier(db.events, j);
      AnnouncedGrows(db.events, i + 1, j, id);
      assert db.events[..i + 1][..i] == db.events[..i];
      UpToCounts(VersionOf(db, id));
    }
  }

  // --- what a sequence of changes amounts to --------------------------------------------

  /** Everything delivered for a message, merged last-writer-wins. */
  function Merged(cs: seq<Change>, id: MessageId): MessagePatch {
    if cs == [] then NO_PATCH
    else
      var last, rest := cs[|cs| - 1], Merged(cs[..|cs| - 1], id);
      if last.Deliver? && last.message.id == id then Merge(rest, last.message.patch) else rest
  }

  /** Partial updates compose over a whole run: the stored values are the initial ones under the
      merge of every update delivered, whatever the folders and whatever came in between. */
  lemma {:induction false} ValuesAreTheMergedUpdates(db: Db, cs: seq<Change>, id: MessageId)
    ensures FieldsOf(ApplyAll(db, cs), id) == PatchFields(FieldsOf(db, id), Merged(cs, id))
    ensures BagsOf(ApplyAll(db, cs), id) == PatchBags(BagsOf(db, id), Merged(cs, id))
  {
    hide PatchFields, PatchBags;
    if cs == [] {
      FieldUpdatesCompose(FieldsOf(db, id), NO_PATCH, NO_PATCH);
      RecipientUpdatesCompose(BagsOf(db, id), NO_PATCH, NO_PATCH);
    } else {
      var n := |cs| - 1;
      ValuesAreTheMergedUpdates(db, cs[..n], id);
      if cs[n].Deliver? && cs[n].message.id == id {
        FieldUpdatesCompose(FieldsOf(db, id), Merged(cs[..n], id), cs[n].message.patch);
        RecipientUpdatesCompose(BagsOf(db, id), Merged(cs[..n], id), cs[n].message.patch);
      }
    }
  }

  /** The last word on a membership. */
  datatype Fate = Untouched | Stamped(generation: nat) | Gone

  function FateOf(cs: seq<Change>, folder: FolderId, id: MessageId): Fate {
    if cs == [] then Untouched
    else
      var last := cs[|cs| - 1];
      if last.folder == folder && Target(last) == id then
        if last.Deliver? then Stamped(last.generation) else Gone
      else FateOf(cs[..|cs| - 1], folder, id)
  }

  /** A membership after any run is decided by the last change that named it. */
  lemma {:induction false} MembershipsFollowTheirFate(db: Db, cs: seq<Change>, folder: FolderId, id: MessageId)
    requires Valid(db)
    ensures var after, k := ApplyAll(db, cs).memberships, (folder, id);
            match FateOf(cs, folder, id)
            case Untouched => (k in after <==> k in db.memberships) && (k in after ==> after[k] == db.memberships[k])
            case Stamped(g) => k in after && after[k] == g
            case Gone => k !in after
  {
    hide PatchFields, PatchBags;
    if cs != [] {
      MembershipsFollowTheirFate(db, cs[..|cs| - 1], folder, id);
      LedgerHolds(db, cs[..|cs| - 1]);
    }
  }

  // --- pages ----------------------------------------------------------------------------

  function Deliveries(folder: FolderId, generation: nat, messages: seq<ProviderMessage>): (cs: seq<Change>)
    ensures |cs| == |messages|
    ensures forall i :: 0 <= i < |cs| ==> cs[i] == Deliver(folder, generation, messages[i])
  {
    seq(|messages|, i requires 0 <= i < |messages| => Deliver(folder, generation, messages[i]))
  }

  function Removals(folder: FolderId, ids: seq<MessageId>): (cs: seq<Change>)
    ensures |cs| == |ids|
    ensures forall i :: 0 <= i < |cs| ==> cs[i] == Remove(folder, ids[i])
  {
    seq(|ids|, i requires 0 <= i < |ids| => Remove(folder, ids[i]))
  }

  function PageChanges(folder: FolderId, generation: nat, page: Page): seq<Change> {
    Deliveries(folder, generation, page.messages) + Removals(folder, page.removals)
  }

  /** Two table states that hold the same messages up to their version counters. */
  ghost predicate SameContent(a: Db, b: Db) {
    && a.messages.Keys == b.messages.Keys
    && a.memberships == b.memberships
    && a.participants == b.participants
    && forall id :: id in a.messages ==>
         a.messages[id].fields == b.messages[id].fields && a.messages[id].isDeleted == b.messages[id].isDeleted
  }

  lemma {:induction false} KeysAfter(db: Db, cs: seq<Change>, id: MessageId)
    requires Valid(db)
    ensures id in ApplyAll(db, cs).messages
            <==> id in db.messages || exists i :: 0 <= i < |cs| && cs[i].Deliver? && cs[i].message.id == id
    ensures id in db.messages ==> ApplyAll(db, cs).messages[id].isDeleted == db.messages[id].isDeleted
    ensures id in ApplyAll(db, cs).messages && id !in db.messages ==> !ApplyAll(db, cs).messages[id].isDeleted
  {
    hide PatchFields, PatchBags;
    if cs != [] {
      var n := |cs| - 1;
      var front := cs[..n];
      KeysAfter(db, front, id);
      assert forall i :: 0 <= i < n ==> front[i] == cs[i];
      if cs[n].Deliver? && cs[n].message.id == id {
        assert cs[n].Deliver? && cs[n].message.id == id;
      }
    }
  }

  /** Replaying any changes gives the same values and memberships as applying them once. */
  lemma ReplayConverges(db: Db, cs: seq<Change>)
    requires Valid(db)
    ensures SameContent(ApplyAll(ApplyAll(db, cs), cs), ApplyAll(db, cs))
  {
    hide PatchFields, PatchBags;
    var once := ApplyAll(db, cs);
    var twice := ApplyAll(once, cs);
    LedgerHolds(db, cs);
    LedgerHolds(once, cs);
    forall id ensures id in twice.messages <==> id in once.messages
      ensures id in once.messages ==> twice.messages[id].isDeleted == once.messages[id].isDeleted
      ensures FieldsOf(twice, id) == FieldsOf(once, id) && BagsOf(twice, id) == BagsOf(once, id)
    {
      KeysAfter(db, cs, id);
      KeysAfter(once, cs, id);
      ValuesAreTheMergedUpdates(db, cs, id);
      ValuesAreTheMergedUpdates(once, cs, id);
      FieldUpdatesCompose(FieldsOf(db, id), Merged(cs, id), NO_PATCH);
      RecipientUpdatesCompose(BagsOf(db, id), Merged(cs, id), NO_PATCH);
    }
    forall id | id in once.participants ensures twice.participants[id] == once.participants[id] {
      assert BagsOf(twice, id) == BagsOf(once, id);
    }
    forall id | id in once.messages ensures twice.messages[id].fields == once.messages[id].fields {
      assert FieldsOf(twice, id) == FieldsOf(once, id);
    }
    forall k ensures k in twice.memberships <==> k in once.memberships
      ensures k in once.memberships ==> twice.memberships[k] == once.memberships[k]
    {
      MembershipsFollowTheirFate(db, cs, k.0, k.1);
      MembershipsFollowTheirFate(once, cs, k.0, k.1);
      assert k == (k.0, k.1);
    }
  }

  predicate Settled(page: Page) {
    && (forall i, j :: 0 <= i < j < |page.messages| ==> page.messages[i].id != page.messages[j].id)
    && (forall i, j :: 0 <= i < |page.messages| && 0 <= j < |page.removals| ==> page.messages[i].id != page.removals[j])
  }

  lemma {:induction false} FatesOfASettledPage(folder: FolderId, g: nat, page: Page, i: nat, n: nat)
    requires Settled(page) && i < n <= |page.messages| + |page.removals|
    ensures var cs := PageChanges(folder, g, page);
            && (cs[i].Deliver? ==>
                  FateOf(cs[..n], folder, Target(cs[i])) == Stamped(g)
                  && Merged(cs[..n], Target(cs[i])) == Merge(NO_PATCH, cs[i].message.patch))
            && (cs[i].Remove? ==> FateOf(cs[..n], folder, Target(cs[i])) == Gone)
    decreases n
  {
    var cs := PageChanges(folder, g, page);
    var id := Target(cs[i]);
    assert cs[..n][..n - 1] == cs[..n - 1];
    if i < n - 1 {
      FatesOfASettledPage(folder, g, page, i, n - 1);
    } else if cs[i].Deliver? {
      forall k | 0 <= k < i ensures Target(cs[k]) != id {
      }
      NothingMerged(cs[..i], id);
    }
  }

  lemma {:induction false} NothingMerged(cs: seq<Change>, id: MessageId)
    requires forall k :: 0 <= k < |cs| ==> Target(cs[k]) != id
    ensures Merged(cs, id) == NO_PATCH
  {
    if cs != [] {
      NothingMerged(cs[..|cs| - 1], id);
    }
  }

  lemma {:induction false} FixedByAll(db: Db, cs: seq<Change>)
    requires forall i :: 0 <= i < |cs| ==> ApplyChange(db, cs[i]) == db
    ensures ApplyAll(db, cs) == db
  {
    if cs != [] {
      FixedByAll(db, cs[..|cs| - 1]);
    }
  }

  /** A page whose ids are distinct and disjoint from its removals is idempotent outright: the second
      pass bumps no version, emits no event and changes no row. */
  lemma SecondPassOfAPageIsSilent(db: Db, folder: FolderId, g: nat, page: Page)
    requires Valid(db) && Settled(page)
    ensures var cs := PageChanges(folder, g, page);
            ApplyAll(ApplyAll(db, cs), cs) == ApplyAll(db, cs)
  {
    hide PatchFields, PatchBags;
    var cs := PageChanges(folder, g, page);
    var once := ApplyAll(db, cs);
    LedgerHolds(db, cs);
    forall i | 0 <= i < |cs| ensures ApplyChange(once, cs[i]) == once {
      var id := Target(cs[i]);
      assert cs[..|cs|] == cs;
      FatesOfASettledPage(folder, g, page, i, |cs|);
      MembershipsFollowTheirFate(db, cs, folder, id);
      if cs[i].Deliver? {
        ValuesAreTheMergedUpdates(db, cs, id);
        FieldUpdatesCompose(FieldsOf(db, id), NO_PATCH, cs[i].message.patch);
        RecipientUpdatesCompose(BagsOf(db, id), NO_PATCH, cs[i].message.patch);
        FieldUpdatesCompose(FieldsOf(db, id), cs[i].message.patch, NO_PATCH);
        RecipientUpdatesCompose(BagsOf(db, id), cs[i].message.patch, NO_PATCH);
        assert id in once.messages;
        assert once.messages[id := once.messages[id]] == once.messages;
        assert once.participants[id := once.participants[id]] == once.participants;
        assert once.memberships[(folder, id) := g] == once.memberships;
      }
    }
    FixedByAll(once, cs);
  }

  // --- resync ---------------------------------------------------------------------------

  /** The messages whose membership of the folder is older than the generation. */
  ghost function Stale(db: Db, folder: FolderId, g: nat): set<MessageId> {
    set k | k in db.memberships && k.0 == folder && db.memberships[k] < g :: k.1
  }

  /** Any order in which the stale rows may come back from the table. */
  ghost predicate Enumerates(order: seq<MessageId>, s: set<MessageId>) {
    && (forall i, j :: 0 <= i < j < |order| ==> order[i] != order[j])
    && (forall id :: id in order <==> id in s)
  }

  function Reconciliations(folder: FolderId, order: seq<MessageId>): (cs: seq<Change>)
    ensures |cs| == |order|
    ensures forall i :: 0 <= i < |cs| ==> cs[i] == Reconcile(folder, order[i])
  {
    seq(|order|, i requires 0 <= i < |order| => Reconcile(folder, order[i]))
  }

  lemma {:induction false} FateUnderReconciliation(folder: FolderId, order: seq<MessageId>, f: FolderId, id: MessageId)
    ensures FateOf(Reconciliations(folder, order), f, id) == if f == folder && id in order then Gone else Untouched
  {
    if order != [] {
      var n := |order| - 1;
      assert Reconciliations(folder, order)[..n] == Reconciliations(folder, order[..n]);
      assert order == order[..n] + [order[n]];
      FateUnderReconciliation(folder, order[..n], f, id);
    }
  }

  lemma {:induction false} ReconciliationBumpsEachOnce(db: Db, folder: FolderId, order: seq<MessageId>, id: MessageId)
    requires Valid(db) && forall i, j :: 0 <= i < j < |order| ==> order[i] != order[j]
    requires forall i :: 0 <= i < |order| ==> (folder, order[i]) in db.memberships
    ensures VersionOf(ApplyAll(db, Reconciliations(folder, order)), id)
            == VersionOf(db, id) + (if id in order then 1 else 0)
    ensures |ApplyAll(db, Reconciliations(folder, order)).events| == |db.events| + |order|
  {
    if order != [] {
      var n := |order| - 1;
      var front := order[..n];
      var mid := ApplyAll(db, Reconciliations(folder, front));
      assert Reconciliations(folder, order)[..n] == Reconciliations(folder, front);
      assert order == front + [order[n]];
      ReconciliationBumpsEachOnce(db, folder, front, id);
      LedgerHolds(db, Reconciliations(folder, front));
      MembershipsFollowTheirFate(db, Reconciliations(folder, front), folder, order[n]);
      FateUnderReconciliation(folder, front, folder, order[n]);
    }
  }

  /** Cleaning up a folder drops exactly its stale memberships, touches no other folder and no other
      stamp, and gives each message it drops one new version and one event. */
  lemma ReconciliationIsExact(db: Db, folder: FolderId, g: nat, order: seq<MessageId>)
    requires Valid(db) && Enumerates(order, Stale(db, folder, g))
    ensures var after := ApplyAll(db, Reconciliations(folder, order));
            && (forall k :: k in after.memberships <==>
                  k in db.memberships && (k.0 == folder ==> g <= db.memberships[k]))
            && (forall k :: k in after.memberships ==> after.memberships[k] == db.memberships[k])
            && (forall id :: VersionOf(after, id) == VersionOf(db, id) + (if id in Stale(db, folder, g) then 1 else 0))
            && |after.events| == |db.events| + |order|
  {
    var after := ApplyAll(db, Reconciliations(folder, order));
    forall k ensures k in after.memberships <==> k in db.memberships && (k.0 == folder ==> g <= db.memberships[k])
      ensures k in after.memberships ==> after.memberships[k] == db.memberships[k]
    {
      MembershipsFollowTheirFate(db, Reconciliations(folder, order), k.0, k.1);
      FateUnderReconciliation(folder, order, k.0, k.1);
      assert k == (k.0, k.1);
      assert k.1 in Stale(db, folder, g) <==> (folder, k.1) in db.memberships && db.memberships[(folder, k.1)] < g;
    }
    forall i | 0 <= i < |order| ensures (folder, order[i]) in db.memberships {
      assert order[i] in Stale(db, folder, g);
    }
    forall id ensures VersionOf(after, id) == VersionOf(db, id) + (if id in Stale(db, folder, g) then 1 else 0) {
      ReconciliationBumpsEachOnce(db, folder, order, id);
      assert id in order <==> id in Stale(db, folder, g);
    }
    ReconciliationBumpsEachOnce(db, folder, order, "");
  }

  /** Every delivery into the folder carries the generation of the resync. */
  predicate StampsWith(cs: seq<Change>, folder: FolderId, g: nat) {
    forall i :: 0 <= i < |cs| && cs[i].Deliver? && cs[i].folder == folder ==> cs[i].generation == g
  }

  ghost predicate OlderThan(db: Db, folder: FolderId, g: nat) {
    forall k :: k in db.memberships && k.0 == folder ==> db.memberships[k] < g
  }

  /** The folder holds exactly what was delivered to it and not removed afterwards. */
  ghost predicate HoldsExactlyDelivered(after: Db, cs: seq<Change>, folder: FolderId, g: nat) {
    forall id :: (folder, id) in after.memberships <==> FateOf(cs, folder, id) == Stamped(g)
  }

  /** The tables after a resync ran through and was cleaned up, in some row order. */
  ghost function Resynced(db: Db, cs: seq<Change>, folder: FolderId, g: nat, order: seq<MessageId>): Db {
    ApplyAll(ApplyAll(db, cs), Reconciliations(folder, order))
  }

  lemma {:induction false} FateStampsWith(cs: seq<Change>, folder: FolderId, g: nat, id: MessageId)
    requires StampsWith(cs, folder, g)
    ensures FateOf(cs, folder, id).Stamped? ==> FateOf(cs, folder, id) == Stamped(g)
  {
    if cs != [] {
      FateStampsWith(cs[..|cs| - 1], folder, g, id);
    }
  }

  /** Resync exactness: if the folder only had older stamps at the restart, then after any changes in
      any folders and the final clean-up it holds exactly what the resync delivered and did not
      remove later; other folders are as the changes left them. */
  lemma ResyncIsExact(db: Db, cs: seq<Change>, folder: FolderId, g: nat, order: seq<MessageId>)
    requires Valid(db) && OlderThan(db, folder, g) && StampsWith(cs, folder, g)
    requires Enumerates(order, Stale(ApplyAll(db, cs), folder, g))
    ensures var after := Resynced(db, cs, folder, g, order);
            && HoldsExactlyDelivered(after, cs, folder, g)
            && (forall k: (FolderId, MessageId) :: k.0 != folder ==>
                (k in after.memberships <==> k in ApplyAll(db, cs).memberships))
            && (forall k: (FolderId, MessageId) :: k in after.memberships && k in ApplyAll(db, cs).memberships ==>
                  after.memberships[k] == ApplyAll(db, cs).memberships[k])
  {
    LedgerHolds(db, cs);
    ReconciliationIsExact(ApplyAll(db, cs), folder, g, order);
    forall id ensures (folder, id) in Resynced(db, cs, folder, g, order).memberships
                      <==> FateOf(cs, folder, id) == Stamped(g)
    {
      MembershipsFollowTheirFate(db, cs, folder, id);
      FateStampsWith(cs, folder, g, id);
    }
  }

  /** The guard on which exactness turns: a generation read before the lease was taken may not exceed
      the stamps already in the folder. Exact for every possible resync if and only if it does. */
  lemma ResyncIsExactIffStampsAreOlder(db: Db, folder: FolderId, g: nat)
    requires Valid(db)
    ensures (forall cs, order :: StampsWith(cs, folder, g) && Enumerates(order, Stale(ApplyAll(db, cs), folder, g)) ==>
               HoldsExactlyDelivered(Resynced(db, cs, folder, g, order), cs, folder, g))
            <==> OlderThan(db, folder, g)
  {
    if OlderThan(db, folder, g) {
      forall cs, order | StampsWith(cs, folder, g) && Enumerates(order, Stale(ApplyAll(db, cs), folder, g))
        ensures HoldsExactlyDelivered(Resynced(db, cs, folder, g, order), cs, folder, g)
      {
        ResyncIsExact(db, cs, folder, g, order);
      }
    } else {
      var k :| k in db.memberships && k.0 == folder && g <= db.memberships[k];
      var order := Enumeration(Stale(db, folder, g));
      ReconciliationIsExact(db, folder, g, order);
      var after := Resynced(db, [], folder, g, order);
      assert k == (folder, k.1) && k in after.memberships;
      assert FateOf([], folder, k.1) == Untouched;
      assert StampsWith([], folder, g) && !HoldsExactlyDelivered(after, [], folder, g);
    }
  }

  ghost function Enumeration(s: set<MessageId>): (order: seq<MessageId>)
    ensures Enumerates(order, s)
  {
    if s == {} then [] else
      var id :| id in s;
      [id] + Enumeration(s - {id})
  }
}
