/** The canonical mail tables and the three-valued updates that a provider sends for them.
    One mail account is modelled, so the provider's message id stands for the row id. */
module MailData {
  import opened Leases
  import opened Participants

  type MessageId = string
  type FolderId = nat

  /** A field of a provider message: absent, explicitly null, or a value. */
  datatype Patch<+T> = Unset | Null | Val(value: T)

  datatype MessagePatch = MessagePatch(
    subject: Patch<string>, body: Patch<string>, bodyPreview: Patch<string>, received: Patch<Time>,
    hasAttachments: Patch<bool>, isRead: Patch<bool>, sender: Patch<Address>,
    to: Patch<seq<Address>>, cc: Patch<seq<Address>>, bcc: Patch<seq<Address>>)

  datatype ProviderMessage = ProviderMessage(id: MessageId, patch: MessagePatch)

  datatype Page = Page(
    messages: seq<ProviderMessage>, removals: seq<MessageId>, next: Option<string>,
    hasMore: bool, checkpoint: bool)

  // --- tables ---------------------------------------------------------------------------

  datatype Fields = Fields(
    subject: Option<string>, body: Option<string>, bodyPreview: Option<string>, received: Option<Time>,
    hasAttachments: bool, isRead: bool, sender: Option<Participant>)

  datatype Row = Row(version: nat, isDeleted: bool, fields: Fields)

  /** The participant rows of one message, an unordered bag per role. */
  datatype Bags = Bags(to: multiset<Participant>, cc: multiset<Participant>, bcc: multiset<Participant>)

  datatype Action = Created | Updated | FolderRemoved(folder: FolderId) | StaleReconciled(folder: FolderId)

  datatype Event = Event(message: MessageId, version: nat, action: Action)

  datatype Db = Db(
    messages: map<MessageId, Row>,
    participants: map<MessageId, Bags>,
    memberships: map<(FolderId, MessageId), nat>,
    events: seq<Event>)

  const BLANK_FIELDS := Fields(None, None, None, None, false, false, None)
  const NO_BAGS := Bags(multiset{}, multiset{}, multiset{})
  const EMPTY_DB := Db(map[], map[], map[], [])

  // --- what a patch means ---------------------------------------------------------------

  function Nullable<T>(was: Option<T>, p: Patch<T>): Option<T> {
    match p case Unset => was case Null => None case Val(v) => Some(v)
  }

  /** Null is no value for a flag. */
  function Flag(was: bool, p: Patch<bool>): bool {
    if p.Val? then p.value else was
  }

  function SenderOf(a: Address): Participant {
    Participant(a.name, Normalize(a.email))
  }

  function PatchFields(f: Fields, p: MessagePatch): Fields {
    Fields(Nullable(f.subject, p.subject), Nullable(f.body, p.body), Nullable(f.bodyPreview, p.bodyPreview),
           Nullable(f.received, p.received), Flag(f.hasAttachments, p.hasAttachments), Flag(f.isRead, p.isRead),
           match p.sender case Unset => f.sender case Null => None case Val(a) => Some(SenderOf(a)))
  }

  function PatchBag(was: multiset<Participant>, p: Patch<seq<Address>>): multiset<Participant> {
    match p case Unset => was case Null => multiset{} case Val(list) => Bag(list)
  }

  function PatchBags(b: Bags, p: MessagePatch): Bags {
    Bags(PatchBag(b.to, p.to), PatchBag(b.cc, p.cc), PatchBag(b.bcc, p.bcc))
  }

  // --- last writer wins -----------------------------------------------------------------

  const NO_PATCH := MessagePatch(Unset, Unset, Unset, Unset, Unset, Unset, Unset, Unset, Unset, Unset)

  function Later<T>(p: Patch<T>, q: Patch<T>): Patch<T> {
    if q.Unset? then p else q
  }

  function LaterFlag(p: Patch<bool>, q: Patch<bool>): Patch<bool> {
    if q.Val? then q else p
  }

  function Merge(p: MessagePatch, q: MessagePatch): MessagePatch {
    MessagePatch(Later(p.subject, q.subject), Later(p.body, q.body), Later(p.bodyPreview, q.bodyPreview),
                 Later(p.received, q.received), LaterFlag(p.hasAttachments, q.hasAttachments),
                 LaterFlag(p.isRead, q.isRead), Later(p.sender, q.sender),
                 Later(p.to, q.to), Later(p.cc, q.cc), Later(p.bcc, q.bcc))
  }

  lemma NullableComposes<T>(was: Option<T>, p: Patch<T>, q: Patch<T>)
    ensures Nullable(Nullable(was, p), q) == Nullable(was, Later(p, q))
    ensures Nullable(Nullable(was, p), p) == Nullable(was, p)
  {
  }

  lemma BagComposes(was: multiset<Participant>, p: Patch<seq<Address>>, q: Patch<seq<Address>>)
    ensures PatchBag(PatchBag(was, p), q) == PatchBag(was, Later(p, q))
    ensures PatchBag(PatchBag(was, p), p) == PatchBag(was, p)
  {
  }

  /** Partial updates compose: two in a row are their last-writer-wins merge, absence is the
      identity, and repeating an update adds nothing. */
  lemma FieldUpdatesCompose(f: Fields, p: MessagePatch, q: MessagePatch)
    ensures PatchFields(PatchFields(f, p), q) == PatchFields(f, Merge(p, q))
    ensures PatchFields(f, NO_PATCH) == f
    ensures PatchFields(PatchFields(f, p), p) == PatchFields(f, p)
  {
    NullableComposes(f.subject, p.subject, q.subject);
    NullableComposes(f.body, p.body, q.body);
    NullableComposes(f.bodyPreview, p.bodyPreview, q.bodyPreview);
    NullableComposes(f.received, p.received, q.received);
  }

  lemma RecipientUpdatesCompose(b: Bags, p: MessagePatch, q: MessagePatch)
    ensures PatchBags(PatchBags(b, p), q) == PatchBags(b, Merge(p, q))
    ensures PatchBags(b, NO_PATCH) == b
    ensures PatchBags(PatchBags(b, p), p) == PatchBags(b, p)
  {
    BagComposes(b.to, p.to, q.to);
    BagComposes(b.cc, p.cc, q.cc);
    BagComposes(b.bcc, p.bcc, q.bcc);
  }

  // --- the search document --------------------------------------------------------------

  /** What the projection worker indexes. Both lists come from unordered SELECTs. */
  datatype Document = Document(
    id: MessageId, version: nat, isDeleted: bool, fields: Fields, participants: Bags, folders: set<FolderId>)

  function BuildDocument(id: MessageId, row: Row, bags: Bags, folders: set<FolderId>): Document {
    Document(id, row.version, row.isDeleted, row.fields, bags, folders)
  }

  function Folders(db: Db, id: MessageId): set<FolderId> {
    set k | k in db.memberships && k.1 == id :: k.0
  }

  /** The document of the message as the tables stand now. */
  function Projected(db: Db, id: MessageId): Document
    requires id in db.messages && id in db.participants
  {
    BuildDocument(id, db.messages[id], db.participants[id], Folders(db, id))
  }

  /** The document apart from its version. */
  function Content(db: Db, id: MessageId): Document
    requires id in db.messages && id in db.participants
  {
    Projected(db, id).(version := 0)
  }

  function VersionOf(db: Db, id: MessageId): nat {
    if id in db.messages then db.messages[id].version else 0
  }

  // --- the ledger -----------------------------------------------------------------------

  /** The versions announced for a message, oldest first. */
  function Announced(events: seq<Event>, id: MessageId): seq<nat> {
    if events == [] then []
    else
      var last := events[|events| - 1];
      Announced(events[..|events| - 1], id) + (if last.message == id then [last.version] else [])
  }

  lemma AnnouncedAppend(events: seq<Event>, e: Event, id: MessageId)
    ensures Announced(events + [e], id) == Announced(events, id) + (if e.message == id then [e.version] else [])
  {
    assert (events + [e])[..|events|] == events;
  }

  function UpTo(n: nat): seq<nat> {
    if n == 0 then [] else UpTo(n - 1) + [n]
  }

  ghost predicate CanonicalBags(b: Bags) {
    forall p :: p in b.to || p in b.cc || p in b.bcc ==> Canonical(p)
  }

  /** Every participant row is spelled as this program spells it. */
  ghost predicate CanonicalRows(db: Db) {
    forall id :: id in db.participants ==> CanonicalBags(db.participants[id])
  }

  /** What the tables owe each other; the last line is the outbox ledger. */
  ghost predicate Valid(db: Db) {
    && db.participants.Keys == db.messages.Keys
    && (forall k :: k in db.memberships ==> k.1 in db.messages)
    && (forall id :: Announced(db.events, id) == UpTo(VersionOf(db, id)))
  }
}
