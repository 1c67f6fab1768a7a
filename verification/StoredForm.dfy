/** What a provider message looks like once it is stored, said column by column and character by
    character, without the functions that store it. */
module StoredForm {
  import opened Leases
  import opened Participants
  import opened MailData
  import opened MessageProcessing

  // --- addresses ------------------------------------------------------------------------

  ghost predicate Blank(c: char) {
    c as int in {9, 10, 11, 12, 13, 28, 29, 30, 31, 32}
  }

  /** A capital letter of ASCII goes to its small one, any other character to itself. */
  ghost predicate SmallLetterOf(small: char, c: char) {
    if 65 <= c as int <= 90 then small as int == c as int + 32 else small == c
  }

  /** The stored address is the given one between its first and its last character that is not blank, in
      small letters. */
  ghost predicate StrippedAt(stored: string, given: string, from: nat, to: nat) {
    && from <= to <= |given| && |stored| == to - from
    && (forall k :: 0 <= k < from || to <= k < |given| ==> Blank(given[k]))
    && (from < to ==> !Blank(given[from]) && !Blank(given[to - 1]))
    && (forall k :: 0 <= k < |stored| ==> SmallLetterOf(stored[k], given[from + k]))
  }

  ghost predicate IsStripped(stored: string, given: string) {
    exists from: nat, to: nat :: StrippedAt(stored, given, from, to)
  }

  lemma SpacesAreBlank(c: char)
    ensures Space(c) <==> Blank(c)
  {
  }

  lemma {:induction false} LeftPart(s: string)
    ensures var n := |s| - |StripLeft(s)|;
            && 0 <= n && StripLeft(s) == s[n..] && (forall k :: 0 <= k < n ==> Blank(s[k]))
            && (n < |s| ==> !Blank(s[n]))
  {
    if s != "" {
      SpacesAreBlank(s[0]);
      if Space(s[0]) {
        LeftPart(s[1..]);
      }
    }
  }

  lemma {:induction false} RightPart(s: string)
    ensures var n := |StripRight(s)|;
            && n <= |s| && StripRight(s) == s[..n] && (forall k :: n <= k < |s| ==> Blank(s[k]))
            && (0 < n ==> !Blank(s[n - 1]))
  {
    if s != "" {
      SpacesAreBlank(s[|s| - 1]);
      if Space(s[|s| - 1]) {
        RightPart(s[..|s| - 1]);
      }
    }
  }

  lemma LoweredLetters(s: string, k: nat)
    requires k < |s|
    ensures SmallLetterOf(Lower(s)[k], s[k])
  {
  }

  lemma NormalizedIsStripped(given: string)
    ensures IsStripped(Normalize(given), given)
  {
    var left := StripLeft(given);
    var middle := StripRight(left);
    var from := |given| - |left|;
    LeftPart(given);
    RightPart(left);
    hide StripLeft, StripRight, Blank, SmallLetterOf;
    forall k | 0 <= k < |middle| ensures SmallLetterOf(Lower(middle)[k], given[from + k]) {
      LoweredLetters(middle, k);
    }
    assert Normalize(given) == Lower(middle);
    assert StrippedAt(Lower(middle), given, from, from + |middle|);
  }

  /** There is only one such form. */
  lemma StrippedIsUnique(a: string, b: string, given: string)
    requires IsStripped(a, given) && IsStripped(b, given)
    ensures a == b
  {
    var i: nat, j: nat :| StrippedAt(a, given, i, j);
    var m: nat, n: nat :| StrippedAt(b, given, m, n);
    if i < j || m < n {
      SameStretch(a, b, given, i, j, m, n);
      forall k | 0 <= k < |a| ensures a[k] == b[k] {
        assert SmallLetterOf(a[k], given[i + k]) && SmallLetterOf(b[k], given[i + k]);
      }
    }
  }

  lemma SameStretch(a: string, b: string, given: string, i: nat, j: nat, m: nat, n: nat)
    requires StrippedAt(a, given, i, j) && StrippedAt(b, given, m, n) && (i < j || m < n)
    ensures i == m && j == n
  {
    if i < j {
      assert !Blank(given[i]) && !Blank(given[j - 1]);
    }
    if m < n {
      assert !Blank(given[m]) && !Blank(given[n - 1]);
    }
  }

  // --- recipients -----------------------------------------------------------------------

  /** The row that an address becomes: an empty name counts as none. */
  ghost predicate StoredAs(p: Participant, a: Address) {
    && IsStripped(p.email, a.email)
    && p.name == (if a.name.Some? && a.name.value != "" then a.name else None)
  }

  ghost function ListedAs(p: Participant, list: seq<Address>): set<nat> {
    set i: nat | i < |list| && StoredAs(p, list[i])
  }

  lemma StoredAsMeans(p: Participant, a: Address)
    ensures StoredAs(p, a) <==> p == Stored(a)
  {
    NormalizedIsStripped(a.email);
    if StoredAs(p, a) {
      StrippedIsUnique(p.email, Normalize(a.email), a.email);
    }
  }

  lemma BagAppend(list: seq<Address>, a: Address)
    ensures Bag(list + [a]) == Bag(list) + multiset{Stored(a)}
  {
    hide Stored;
    assert MapSeq(Stored, list + [a]) == MapSeq(Stored, list) + [Stored(a)];
  }

  lemma ListedAppend(p: Participant, list: seq<Address>, a: Address)
    ensures |ListedAs(p, list + [a])| == |ListedAs(p, list)| + (if StoredAs(p, a) then 1 else 0)
  {
    hide StoredAs;
    var more := list + [a];
    assert forall i: nat :: i < |list| ==> more[i] == list[i];
    assert ListedAs(p, more) == ListedAs(p, list) + (if StoredAs(p, a) then {|list|} else {});
  }

  /** A list stores each participant as often as it lists an address that is stored so. */
  lemma {:induction false} ListIsCounted(list: seq<Address>, p: Participant)
    ensures Bag(list)[p] == |ListedAs(p, list)|
  {
    hide StoredAs, Bag, ListedAs, Stored;
    if list == [] {
      NothingListed(p);
    } else {
      var n := |list| - 1;
      assert list == list[..n] + [list[n]];
      ListIsCounted(list[..n], p);
      StoredAsMeans(p, list[n]);
      BagAppend(list[..n], list[n]);
      ListedAppend(p, list[..n], list[n]);
    }
  }

  lemma NothingListed(p: Participant)
    ensures Bag([]) == multiset{} && ListedAs(p, []) == {}
  {
    assert MapSeq(Stored, []) == [];
  }

  /** The rows of a role after an update: as they were, none, or the list as it is counted. */
  ghost predicate RowsFollow(before: multiset<Participant>, after: multiset<Participant>, p: Patch<seq<Address>>) {
    match p
    case Unset => after == before
    case Null => after == multiset{}
    case Val(list) => forall row: Participant :: after[row] == |ListedAs(row, list)|
  }

  lemma PatchedRowsFollow(before: multiset<Participant>, p: Patch<seq<Address>>)
    ensures RowsFollow(before, PatchBag(before, p), p)
  {
    if p.Val? {
      forall row: Participant ensures Bag(p.value)[row] == |ListedAs(row, p.value)| {
        ListIsCounted(p.value, row);
      }
    }
  }

  // --- columns --------------------------------------------------------------------------

  ghost predicate ColumnFollows<T>(before: Option<T>, after: Option<T>, p: Patch<T>) {
    && (p.Unset? ==> after == before) && (p.Null? ==> after.None?) && (p.Val? ==> after == Some(p.value))
  }

  /** Null keeps a flag. */
  ghost predicate FlagFollows(before: bool, after: bool, p: Patch<bool>) {
    after == if p.Val? then p.value else before
  }

  /** A sender keeps its name as it is given. */
  ghost predicate SenderFollows(before: Option<Participant>, after: Option<Participant>, p: Patch<Address>) {
    match p
    case Unset => after == before
    case Null => after.None?
    case Val(a) => after.Some? && after.value.name == a.name && IsStripped(after.value.email, a.email)
  }

  ghost predicate FieldsFollow(before: Fields, after: Fields, p: MessagePatch) {
    && ColumnFollows(before.subject, after.subject, p.subject)
    && ColumnFollows(before.body, after.body, p.body)
    && ColumnFollows(before.bodyPreview, after.bodyPreview, p.bodyPreview)
    && ColumnFollows(before.received, after.received, p.received)
    && FlagFollows(before.hasAttachments, after.hasAttachments, p.hasAttachments)
    && FlagFollows(before.isRead, after.isRead, p.isRead)
    && SenderFollows(before.sender, after.sender, p.sender)
  }

  /** To from To, Cc from Cc, Bcc from Bcc. */
  ghost predicate RecipientsFollow(before: Bags, after: Bags, p: MessagePatch) {
    && RowsFollow(before.to, after.to, p.to) && RowsFollow(before.cc, after.cc, p.cc)
    && RowsFollow(before.bcc, after.bcc, p.bcc)
  }

  lemma PatchedFieldsFollow(f: Fields, p: MessagePatch)
    ensures FieldsFollow(f, PatchFields(f, p), p)
  {
    hide IsStripped, Normalize;
    if p.sender.Val? {
      NormalizedIsStripped(p.sender.value.email);
    }
  }

  /** An update settles each column and each role by its own part of the patch. */
  lemma PatchedColumnsFollow(f: Fields, b: Bags, p: MessagePatch)
    ensures FieldsFollow(f, PatchFields(f, p), p)
    ensures RecipientsFollow(b, PatchBags(b, p), p)
  {
    hide RowsFollow, PatchBag, PatchFields, FieldsFollow;
    PatchedFieldsFollow(f, p);
    PatchedRowsFollow(b.to, p.to);
    PatchedRowsFollow(b.cc, p.cc);
    PatchedRowsFollow(b.bcc, p.bcc);
  }

  // --- the tables after one change ------------------------------------------------------

  /** Nothing else moved. */
  ghost predicate OthersStay(before: Db, after: Db, id: MessageId) {
    && after.messages.Keys == before.messages.Keys + {id} && after.participants.Keys == before.participants.Keys + {id}
    && (forall other :: other in before.messages && other != id ==> after.messages[other] == before.messages[other])
    && (forall other :: other in before.participants && other != id ==>
          after.participants[other] == before.participants[other])
  }

  /** The first delivery of a message: its row, its recipients, its folder, version 1 and the event. */
  ghost predicate FirstDelivered(before: Db, after: Db, folder: FolderId, g: nat, m: ProviderMessage) {
    && OthersStay(before, after, m.id)
    && after.messages[m.id].version == 1 && !after.messages[m.id].isDeleted
    && FieldsFollow(Fields(None, None, None, None, false, false, None), after.messages[m.id].fields, m.patch)
    && RecipientsFollow(Bags(multiset{}, multiset{}, multiset{}), after.participants[m.id], m.patch)
    && after.memberships == before.memberships[(folder, m.id) := g]
    && after.events == before.events + [Event(m.id, 1, Created)]
  }

  /** A later delivery: a new version and an event exactly if a column, a recipient or the folder is new. */
  ghost predicate DeliveredAgain(before: Db, after: Db, folder: FolderId, g: nat, m: ProviderMessage, mutated: bool)
    requires m.id in before.messages && m.id in before.participants
  {
    && OthersStay(before, after, m.id)
    && var was, now := before.messages[m.id], after.messages[m.id];
       && now.isDeleted == was.isDeleted && FieldsFollow(was.fields, now.fields, m.patch)
       && RecipientsFollow(before.participants[m.id], after.participants[m.id], m.patch)
       && after.memberships == before.memberships[(folder, m.id) := g]
       && (mutated <==> now.fields != was.fields || after.participants[m.id] != before.participants[m.id]
                        || (folder, m.id) !in before.memberships)
       && now.version == was.version + (if mutated then 1 else 0)
       && after.events == before.events + (if mutated then [Event(m.id, now.version, Updated)] else [])
  }

  /** A removal takes the message out of the folder, with a new version and an event if it was there. */
  ghost predicate Removed(before: Db, after: Db, folder: FolderId, id: MessageId, action: Action, mutated: bool) {
    && (mutated <==> id in before.messages && (folder, id) in before.memberships)
    && (!mutated ==> after == before)
    && (mutated ==>
          && OthersStay(before, after, id) && after.participants == before.participants
          && after.messages[id] == before.messages[id].(version := before.messages[id].version + 1)
          && after.memberships == before.memberships - {(folder, id)}
          && after.events == before.events + [Event(id, before.messages[id].version + 1, action)])
  }

  lemma DeliveryMeans(db: Db, folder: FolderId, g: nat, m: ProviderMessage)
    requires db.participants.Keys == db.messages.Keys
    ensures var after := ApplyChange(db, Deliver(folder, g, m));
            if m.id !in db.messages then FirstDelivered(db, after, folder, g, m)
            else DeliveredAgain(db, after, folder, g, m, |after.events| > |db.events|)
  {
    hide FieldsFollow, RecipientsFollow, PatchFields, PatchBags;
    PatchedColumnsFollow(FieldsOf(db, m.id), BagsOf(db, m.id), m.patch);
  }

  lemma RemovalMeans(db: Db, folder: FolderId, id: MessageId)
    requires db.participants.Keys == db.messages.Keys
    ensures var after := ApplyChange(db, Remove(folder, id));
            Removed(db, after, folder, id, FolderRemoved(folder), |after.events| > |db.events|)
    ensures var after := ApplyChange(db, Reconcile(folder, id));
            Removed(db, after, folder, id, StaleReconciled(folder), |after.events| > |db.events|)
  {
  }

  // --- the tables after a page ----------------------------------------------------------

  ghost predicate Delivers(page: Page, id: MessageId) {
    exists i :: 0 <= i < |page.messages| && page.messages[i].id == id
  }

  lemma {:induction false} FateAfterRemovals(cs: seq<Change>, folder: FolderId, ids: seq<MessageId>, f: FolderId,
        id: MessageId)
    ensures FateOf(cs + Removals(folder, ids), f, id) == if f == folder && id in ids then Gone else FateOf(cs, f, id)
  {
    var rs := Removals(folder, ids);
    if ids == [] {
      assert cs + rs == cs;
    } else {
      var n := |ids| - 1;
      FateAfterRemovals(cs, folder, ids[..n], f, id);
      assert rs[..n] == Removals(folder, ids[..n]);
      assert (cs + rs)[..|cs + rs| - 1] == cs + rs[..n];
      assert id in ids <==> id in ids[..n] || id == ids[n];
    }
  }

  lemma {:induction false} FateAfterDeliveries(folder: FolderId, g: nat, messages: seq<ProviderMessage>, f: FolderId,
        id: MessageId)
    ensures FateOf(Deliveries(folder, g, messages), f, id)
            == if f == folder && exists i :: 0 <= i < |messages| && messages[i].id == id then Stamped(g) else Untouched
  {
    if messages != [] {
      var n := |messages| - 1;
      FateAfterDeliveries(folder, g, messages[..n], f, id);
      assert Deliveries(folder, g, messages)[..n] == Deliveries(folder, g, messages[..n]);
      assert forall i :: 0 <= i < n ==> messages[..n][i] == messages[i];
    }
  }

  /** Where a page leaves a message: out of the folder if it is removed, even if it was delivered on the same
      page; else in it under the page's generation if it is delivered; and otherwise where it was. */
  ghost predicate PlacedByPage(before: Db, after: Db, folder: FolderId, g: nat, page: Page, f: FolderId,
      id: MessageId) {
    if f == folder && id in page.removals then (f, id) !in after.memberships
    else if f == folder && Delivers(page, id) then (f, id) in after.memberships && after.memberships[(f, id)] == g
    else
      && ((f, id) in after.memberships <==> (f, id) in before.memberships)
      && ((f, id) in after.memberships ==> after.memberships[(f, id)] == before.memberships[(f, id)])
  }

  lemma PagePlaces(db: Db, folder: FolderId, g: nat, page: Page, f: FolderId, id: MessageId)
    requires Valid(db)
    ensures PlacedByPage(db, ApplyAll(db, PageChanges(folder, g, page)), folder, g, page, f, id)
  {
    hide ApplyAll, Valid, FateOf, Deliveries, Removals;
    var deliveries := Deliveries(folder, g, page.messages);
    FateAfterRemovals(deliveries, folder, page.removals, f, id);
    FateAfterDeliveries(folder, g, page.messages, f, id);
    MembershipsFollowTheirFate(db, PageChanges(folder, g, page), f, id);
  }
}
