/** The page transaction's writes, step by step as the sync orchestrator performs them. */
module MailStore {
  import opened Leases
  import opened Participants
  import opened MailData
  import opened MessageProcessing
  import opened StoredForm

  class Store {
    var messages: map<MessageId, Row>
    var participants: map<MessageId, Bags>
    var memberships: map<(FolderId, MessageId), nat>
    var events: seq<Event>

    function Tables(): Db
      reads this
    {
      Db(messages, participants, memberships, events)
    }

    constructor ()
      ensures Tables() == EMPTY_DB
    {
      messages, participants, memberships, events := map[], map[], map[], [];
    }

    /** A SELECT without ORDER BY: the rows of the bag in some order. */
    static method SelectAll(bag: multiset<Participant>) returns (rows: seq<Participant>)
      ensures multiset(rows) == bag
    {
      rows := [];
      var rest := bag;
      while rest != multiset{}
        invariant multiset(rows) + rest == bag
        decreases |rest|
      {
        var p :| p in rest;
        rows := rows + [p];
        rest := rest - multiset{p};
      }
    }

    /** Reconcile the recipients of one role. Null deletes; a list replaces the rows when its sorted
        form differs, and always on a new message. */
    static method ReconcileRole(existing: multiset<Participant>, field: Patch<seq<Address>>, isNew: bool)
      returns (bag: multiset<Participant>, changed: bool)
      requires forall p :: p in existing ==> Canonical(p)
      requires isNew ==> existing == multiset{}
      ensures bag == PatchBag(existing, field) && RowsFollow(existing, bag, field)
      ensures !isNew ==> (changed <==> bag != existing)
    {
      hide Canonical, RowsFollow;
      PatchedRowsFollow(existing, field);
      bag, changed := existing, false;
      match field
      case Unset =>
      case Null =>
        changed := |existing| > 0;
        bag := multiset{};
      case Val(list) =>
        var rows := SelectAll(existing);
        forall p | p in rows ensures Canonical(p) {
          assert p in existing;
        }
        var same := SameParticipants(rows, list);
        if !same || isNew {
          bag := multiset(MapSeq(Stored, list));
          changed := !isNew;
        }
    }

    static method MutateNullable<T(==)>(was: Option<T>, p: Patch<T>) returns (now: Option<T>, changed: bool)
      ensures now == Nullable(was, p)
      ensures changed <==> now != was
    {
      now, changed := was, false;
      if !p.Unset? && was != AsOption(p) {
        now, changed := AsOption(p), true;
      }
    }

    static method MutateFlag(was: bool, p: Patch<bool>) returns (now: bool, changed: bool)
      ensures now == Flag(was, p)
      ensures changed <==> now != was
    {
      now, changed := was, false;
      if !p.Unset? && !p.Null? && was != p.value {
        now, changed := p.value, true;
      }
    }

    /** Every field but the sender. */
    static method MutateScalars(f: Fields, p: MessagePatch) returns (after: Fields, changed: bool)
      ensures after == PatchFields(f, p).(sender := f.sender)
      ensures changed <==> after != f
    {
      var subject, c0 := MutateNullable(f.subject, p.subject);
      var body, c1 := MutateNullable(f.body, p.body);
      var bodyPreview, c2 := MutateNullable(f.bodyPreview, p.bodyPreview);
      var received, c3 := MutateNullable(f.received, p.received);
      var hasAttachments, c4 := MutateFlag(f.hasAttachments, p.hasAttachments);
      var isRead, c5 := MutateFlag(f.isRead, p.isRead);
      after := Fields(subject, body, bodyPreview, received, hasAttachments, isRead, f.sender);
      changed := c0 || c1 || c2 || c3 || c4 || c5;
    }

    /** Steps 2 to 4: scalars, sender and recipients, on the stored values or on those just inserted. */
    static method ReconcileValues(isNew: bool, fields: Fields, bags: Bags, p: MessagePatch)
      returns (newFields: Fields, newBags: Bags, changed: bool)
      requires CanonicalBags(bags)
      requires isNew ==> fields == BLANK_FIELDS && bags == NO_BAGS
      ensures newFields == PatchFields(fields, p) && newBags == PatchBags(bags, p)
      ensures FieldsFollow(fields, newFields, p) && RecipientsFollow(bags, newBags, p)
      ensures !isNew ==> (changed <==> newFields != fields || newBags != bags)
    {
      hide Canonical, Normalize, FieldsFollow, RecipientsFollow;
      var scalarsChanged := false;
      if isNew {
        newFields := NewFields(p);
      } else {
        newFields, scalarsChanged := MutateScalars(fields, p);
      }
      assert newFields == PatchFields(fields, p).(sender := fields.sender);
      var senderChanged;
      newFields, senderChanged := ReconcileSender(newFields, p.sender);
      var to, toChanged := ReconcileRole(bags.to, p.to, isNew);
      var cc, ccChanged := ReconcileRole(bags.cc, p.cc, isNew);
      var bcc, bccChanged := ReconcileRole(bags.bcc, p.bcc, isNew);
      newBags := Bags(to, cc, bcc);
      PatchedColumnsFollow(fields, bags, p);
      changed := scalarsChanged || senderChanged || toChanged || ccChanged || bccChanged;
    }

    /** Steps 5 and 6: the folder membership, then the version and its event. */
    method Settle(folder: FolderId, generation: nat, id: MessageId, fields: Fields, bags: Bags, valuesChanged: bool)
      returns (mutated: bool)
      requires Valid(Tables())
      requires id in messages ==> (valuesChanged <==> fields != messages[id].fields || bags != participants[id])
      modifies this
      ensures Tables() == Put(old(Tables()), folder, generation, id, fields, bags)
      ensures |events| == |old(events)| + (if mutated then 1 else 0)
    {
      var isNew, changed := id !in messages, valuesChanged;
      var row := if isNew then Row(1, false, fields) else messages[id].(fields := fields);
      participants := participants[id := bags];
      if (folder, id) !in memberships {
        changed := true;
        memberships := memberships[(folder, id) := generation];
      } else if memberships[(folder, id)] != generation {
        memberships := memberships[(folder, id) := generation];
      } else {
        assert memberships == memberships[(folder, id) := generation];
      }
      if isNew {
        events := events + [Event(id, 1, Created)];
        mutated := true;
      } else if changed {
        row := row.(version := row.version + 1);
        events := events + [Event(id, row.version, Updated)];
        mutated := true;
      } else {
        mutated := false;
      }
      messages := messages[id := row];
    }

    method ProcessProviderMessage(folder: FolderId, generation: nat, msg: ProviderMessage) returns (mutated: bool)
      requires WellKept(Tables())
      modifies this
      ensures Tables() == ApplyChange(old(Tables()), Deliver(folder, generation, msg))
      ensures |events| == |old(events)| + (if mutated then 1 else 0)
      ensures msg.id !in old(messages) ==>
                mutated && FirstDelivered(old(Tables()), Tables(), folder, generation, msg)
      ensures msg.id in old(messages) ==>
                DeliveredAgain(old(Tables()), Tables(), folder, generation, msg, mutated)
      ensures WellKept(Tables())
    {
      hide PatchFields, PatchBags, Canonical, Put, FirstDelivered, DeliveredAgain;
      StepKeepsWellKept(Tables(), Deliver(folder, generation, msg));
      DeliveryMeans(Tables(), folder, generation, msg);
      CreationIsOneEvent(Tables(), folder, generation, msg);
      var id := msg.id;
      var isNew := id !in messages;
      var fields := if isNew then BLANK_FIELDS else messages[id].fields;
      var bags := if isNew then NO_BAGS else participants[id];
      var changed;
      fields, bags, changed := ReconcileValues(isNew, fields, bags, msg.patch);
      mutated := Settle(folder, generation, id, fields, bags, changed);
    }

    static method ReconcileSender(f: Fields, sender: Patch<Address>) returns (after: Fields, changed: bool)
      ensures after
              == f.(sender := match sender case Unset => f.sender case Null => None case Val(a) => Some(SenderOf(a)))
      ensures changed <==> after != f
    {
      hide Normalize;
      after, changed := f, false;
      match sender
      case Unset =>
      case Null =>
        if f.sender.Some? {
          after, changed := f.(sender := None), true;
        }
      case Val(a) =>
        var stored := Participant(a.name, Normalize(a.email));
        if f.sender != Some(stored) {
          after, changed := f.(sender := Some(stored)), true;
        }
    }

    method RemoveMembership(folder: FolderId, id: MessageId) returns (removed: bool)
      modifies this`memberships
      ensures removed <==> (folder, id) in old(memberships)
      ensures memberships == old(memberships) - {(folder, id)}
    {
      removed := (folder, id) in memberships;
      memberships := memberships - {(folder, id)};
    }

    method ProcessProviderRemoval(folder: FolderId, id: MessageId) returns (mutated: bool)
      requires WellKept(Tables())
      modifies this
      ensures Tables() == ApplyChange(old(Tables()), Remove(folder, id))
      ensures Removed(old(Tables()), Tables(), folder, id, FolderRemoved(folder), mutated)
      ensures |events| == |old(events)| + (if mutated then 1 else 0)
      ensures WellKept(Tables())
    {
      ghost var before := Tables();
      StepKeepsWellKept(before, Remove(folder, id));
      if id !in messages {
        return false;
      }
      var removed := RemoveMembership(folder, id);
      if removed {
        var row := messages[id].(version := messages[id].version + 1);
        messages := messages[id := row];
        events := events + [Event(id, row.version, FolderRemoved(folder))];
        return true;
      }
      assert memberships == before.memberships;
      return false;
    }

    /** The stale rows of the folder, in the order the table returns them. */
    method GetStaleMemberships(folder: FolderId, generation: nat) returns (order: seq<MessageId>)
      ensures Enumerates(order, Stale(Tables(), folder, generation))
    {
      var stale := set k | k in memberships && k.0 == folder && memberships[k] < generation :: k.1;
      assert stale == Stale(Tables(), folder, generation);
      var rest := stale;
      order := [];
      while rest != {}
        invariant rest <= stale
        invariant forall i, j :: 0 <= i < j < |order| ==> order[i] != order[j]
        invariant forall id :: id in order <==> id in stale && id !in rest
        decreases |rest|
      {
        var id :| id in rest;
        order := order + [id];
        rest := rest - {id};
      }
    }

    method ReconcileOne(folder: FolderId, id: MessageId)
      requires WellKept(Tables())
      requires id in messages && (folder, id) in memberships
      modifies this
      ensures Tables() == ApplyChange(old(Tables()), Reconcile(folder, id))
      ensures Removed(old(Tables()), Tables(), folder, id, StaleReconciled(folder), true)
      ensures WellKept(Tables())
    {
      StepKeepsWellKept(Tables(), Reconcile(folder, id));
      var removed := RemoveMembership(folder, id);
      var row := messages[id].(version := messages[id].version + 1);
      messages := messages[id := row];
      events := events + [Event(id, row.version, StaleReconciled(folder))];
    }

    method ReconcileStaleMemberships(folder: FolderId, generation: nat) returns (order: seq<MessageId>)
      requires WellKept(Tables())
      modifies this
      ensures Enumerates(order, Stale(old(Tables()), folder, generation))
      ensures Tables() == ApplyAll(old(Tables()), Reconciliations(folder, order))
      ensures forall k :: k in memberships <==>
                k in old(memberships) && (k.0 == folder ==> generation <= old(memberships)[k])
      ensures forall k :: k in memberships ==> memberships[k] == old(memberships)[k]
      ensures |events| == |old(events)| + |order|
      ensures WellKept(Tables())
    {
      hide ApplyChange, CanonicalRows, Valid, Enumerates, Stale;
      ghost var before := Tables();
      order := GetStaleMemberships(folder, generation);
      for i := 0 to |order|
        invariant Tables() == ApplyAll(before, Reconciliations(folder, order[..i]))
        invariant WellKept(Tables())
      {
        assert order[..i + 1] == order[..i] + [order[i]];
        assert Reconciliations(folder, order[..i + 1])[..i] == Reconciliations(folder, order[..i]);
        StillStale(before, folder, generation, order, i);
        if order[i] in messages {
          ReconcileOne(folder, order[i]);
        }
      }
      assert order[..|order|] == order;
      ReconciliationIsExact(before, folder, generation, order);
    }

    method ProcessMessages(folder: FolderId, generation: nat, batch: seq<ProviderMessage>) returns (mutated: nat)
      requires WellKept(Tables())
      modifies this
      ensures Tables() == ApplyAll(old(Tables()), Deliveries(folder, generation, batch))
      ensures |events| == |old(events)| + mutated
      ensures WellKept(Tables())
    {
      hide ApplyChange, WellKept;
      ghost var before := Tables();
      mutated := 0;
      for i := 0 to |batch|
        invariant Tables() == ApplyAll(before, Deliveries(folder, generation, batch[..i]))
        invariant |events| == |before.events| + mutated
        invariant WellKept(Tables())
      {
        assert Deliveries(folder, generation, batch[..i + 1])[..i] == Deliveries(folder, generation, batch[..i]);
        var m := ProcessProviderMessage(folder, generation, batch[i]);
        if m {
          mutated := mutated + 1;
        }
      }
      assert batch[..|batch|] == batch;
    }

    method ProcessRemovals(folder: FolderId, ids: seq<MessageId>) returns (removed: nat)
      requires WellKept(Tables())
      modifies this
      ensures Tables() == ApplyAll(old(Tables()), Removals(folder, ids))
      ensures |events| == |old(events)| + removed
      ensures WellKept(Tables())
    {
      hide ApplyChange, WellKept;
      ghost var before := Tables();
      removed := 0;
      for i := 0 to |ids|
        invariant Tables() == ApplyAll(before, Removals(folder, ids[..i]))
        invariant |events| == |before.events| + removed
        invariant WellKept(Tables())
      {
        assert Removals(folder, ids[..i + 1])[..i] == Removals(folder, ids[..i]);
        var m := ProcessProviderRemoval(folder, ids[i]);
        if m {
          removed := removed + 1;
        }
      }
      assert ids[..|ids|] == ids;
    }

    /** Deliveries first, then removals. The two counts are what the orchestrator adds to its totals. */
    method ProcessPage(folder: FolderId, generation: nat, page: Page) returns (mutated: nat, removed: nat)
      requires WellKept(Tables())
      modifies this
      ensures Tables() == ApplyAll(old(Tables()), PageChanges(folder, generation, page))
      ensures |events| == |old(events)| + mutated && removed <= mutated
      ensures removed == |events| - |ApplyAll(old(Tables()), Deliveries(folder, generation, page.messages)).events|
      ensures forall f, id :: PlacedByPage(old(Tables()), Tables(), folder, generation, page, f, id)
      ensures WellKept(Tables())
    {
      hide WellKept, PlacedByPage;
      ghost var before := Tables();
      ghost var after := ApplyAll(before, PageChanges(folder, generation, page));
      forall f, id ensures PlacedByPage(before, after, folder, generation, page, f, id) {
        WellKeptIsValid(before);
        PagePlaces(before, folder, generation, page, f, id);
      }
      ApplyAllAppends(Tables(), Deliveries(folder, generation, page.messages), Removals(folder, page.removals));
      mutated := ProcessMessages(folder, generation, page.messages);
      removed := ProcessRemovals(folder, page.removals);
      mutated := mutated + removed;
    }
  }

  function AsOption<T>(p: Patch<T>): Option<T> {
    if p.Val? then Some(p.value) else None
  }

  /** The values of the INSERT; the sender follows in its own step. */
  function NewFields(p: MessagePatch): Fields {
    Fields(AsOption(p.subject), AsOption(p.body), AsOption(p.bodyPreview), AsOption(p.received),
           p.hasAttachments.Val? && p.hasAttachments.value, p.isRead.Val? && p.isRead.value, None)
  }

  lemma CreationIsOneEvent(db: Db, folder: FolderId, g: nat, m: ProviderMessage)
    ensures m.id !in db.messages ==> |ApplyChange(db, Deliver(folder, g, m)).events| == |db.events| + 1
  {
  }

  ghost predicate WellKept(db: Db) {
    Valid(db) && CanonicalRows(db)
  }

  lemma WellKeptIsValid(db: Db)
    requires WellKept(db)
    ensures Valid(db)
  {
  }

  lemma StepKeepsWellKept(db: Db, c: Change)
    requires WellKept(db)
    ensures WellKept(ApplyChange(db, c))
  {
    hide PatchFields, PatchBags, Canonical;
    ChangeKeepsValid(db, c);
    RowsStayCanonical(db, [c]);
    assert [c][..0] == [];
    assert ApplyAll(db, [c]) == ApplyChange(ApplyAll(db, []), c);
  }

  lemma StillStale(db: Db, folder: FolderId, generation: nat, order: seq<MessageId>, i: nat)
    requires Valid(db) && Enumerates(order, Stale(db, folder, generation)) && i < |order|
    ensures var now := ApplyAll(db, Reconciliations(folder, order[..i]));
            (folder, order[i]) in now.memberships && order[i] in now.messages
  {
    var cs := Reconciliations(folder, order[..i]);
    assert order[i] in Stale(db, folder, generation);
    LedgerHolds(db, cs);
    MembershipsFollowTheirFate(db, cs, folder, order[i]);
    FateUnderReconciliation(folder, order[..i], folder, order[i]);
  }
}
