/** The outbox projection: workers that turn committed events into search documents, next to the
    transactions that keep changing the tables, the embedding jobs and the backfill. Steps interleave
    freely; workers may be overtaken, crash, or resume long after they lost their lease, and a write
    that a client gave up on may still arrive. */
module Projection {
  import opened Leases
  import opened Participants
  import opened OutboxLifecycle
  import opened MailData
  import opened MessageProcessing
  import opened StoredForm

  // --- what an embedding is computed from -----------------------------------------------

  /** The fields an embedding is computed from. */
  datatype EmbeddingInput = EmbeddingInput(subject: string, sender: string, body: string)

  /** A JSON column, as far as senders need it. */
  datatype Json = JsonNull | Text(text: string) | Dict(entries: map<string, Json>)

  /** How the sync stores a sender. */
  function StoredSender(sender: Option<Participant>): Json {
    if sender.None? then JsonNull
    else
      var p := sender.value;
      Dict(map["name" := if p.name.Some? then Text(p.name.value) else JsonNull, "email" := Text(p.email)])
  }

  function Get(j: Json, key: string): Json {
    if j.Dict? && key in j.entries then j.entries[key] else JsonNull
  }

  function TextOf(j: Json): string {
    if j.Text? then j.text else ""
  }

  /** The address under the canonical key, or under the provider's own, or a bare string. */
  function CanonicalSenderEmail(sender: Json): string {
    match sender
    case JsonNull => ""
    case Text(text) => Normalize(text)
    case Dict(_) =>
      var email := TextOf(Get(sender, "email"));
      Normalize(if email != "" then email else TextOf(Get(Get(sender, "emailAddress"), "address")))
  }

  /** The backfill looks under the provider's key alone. */
  function ProviderSenderEmail(sender: Json): string {
    match sender
    case JsonNull => ""
    case Text(text) => text
    case Dict(_) => TextOf(Get(Get(sender, "emailAddress"), "address"))
  }

  function OrBlank(s: Option<string>): string {
    if s.Some? then s.value else ""
  }

  function LiveInput(row: Row): EmbeddingInput {
    EmbeddingInput(OrBlank(row.fields.subject), CanonicalSenderEmail(StoredSender(row.fields.sender)),
                   OrBlank(row.fields.bodyPreview))
  }

  function BackfillInput(row: Row): EmbeddingInput {
    EmbeddingInput(OrBlank(row.fields.subject), ProviderSenderEmail(StoredSender(row.fields.sender)),
                   OrBlank(row.fields.bodyPreview))
  }

  /** What is embedded, part by part: subject and preview as they are stored, and the sender's address. */
  lemma LiveInputMeans(row: Row)
    ensures var i, f := LiveInput(row), row.fields;
            && i.subject == (if f.subject.Some? then f.subject.value else "")
            && i.body == (if f.bodyPreview.Some? then f.bodyPreview.value else "")
            && (f.sender.None? ==> i.sender == "")
            && (f.sender.Some? ==> IsStripped(i.sender, f.sender.value.email))
    ensures BackfillInput(row).subject == LiveInput(row).subject && BackfillInput(row).body == LiveInput(row).body
  {
    StripBlank();
    if row.fields.sender.Some? {
      var j, email := StoredSender(row.fields.sender), row.fields.sender.value.email;
      assert Get(j, "email") == Text(email);
      assert "emailAddress" !in j.entries;
      NormalizedIsStripped(email);
    }
  }

  lemma StripBlank()
    ensures Normalize("") == ""
  {
  }

  /** The two producers of embeddings agree on a stored row if and only if it has no sender address: the
      backfill looks for the sender where the sync never puts it. */
  lemma InputsAgreeIffThereIsNoSender(row: Row)
    ensures BackfillInput(row) == LiveInput(row)
            <==> row.fields.sender.None? || Normalize(row.fields.sender.value.email) == ""
    ensures BackfillInput(row).sender == ""
  {
    StripBlank();
    if row.fields.sender.Some? {
      var j := StoredSender(row.fields.sender);
      assert Get(j, "email") == Text(row.fields.sender.value.email);
      assert "emailAddress" !in j.entries;
      assert Get(Get(j, "emailAddress"), "address") == JsonNull;
    }
  }

  // --- the search index -----------------------------------------------------------------

  datatype Writer = Live | Backfill

  datatype Vector = Vector(version: nat, input: EmbeddingInput, writer: Writer)

  function InputOf(writer: Writer, row: Row): EmbeddingInput {
    match writer case Live => LiveInput(row) case Backfill => BackfillInput(row)
  }

  /** A stored document with its external version and, once embedded, its vector. */
  datatype Entry = Entry(external: nat, source: Document, vector: Option<Vector>)

  /** An older version is refused. */
  predicate AcceptsDocument(index: map<MessageId, Entry>, document: Document, version: nat) {
    document.id in index ==> index[document.id].external <= version
  }

  /** A PUT under external_gte versioning; a refusal counts as success. The document replaces everything
      stored, the vector included. */
  function IndexWrite(index: map<MessageId, Entry>, document: Document, version: nat): map<MessageId, Entry> {
    if AcceptsDocument(index, document, version) then index[document.id := Entry(version, document, None)] else index
  }

  /** The scripted update needs the document, and skips one that is already newer. */
  predicate AcceptsVector(index: map<MessageId, Entry>, id: MessageId, vector: Vector) {
    id in index && index[id].source.version <= vector.version
  }

  /** What the update endpoint does to the external version is a parameter. */
  function VectorWrite(index: map<MessageId, Entry>, id: MessageId, vector: Vector, bump: nat): map<MessageId, Entry> {
    if AcceptsVector(index, id, vector)
    then index[id := Entry(index[id].external + bump, index[id].source, Some(vector))]
    else index
  }

  /** The writes that the index accepted. */
  datatype IndexEvent =
    | DocumentStored(message: MessageId, version: nat)
    | VectorStored(message: MessageId, vector: Vector)

  // --- the system -----------------------------------------------------------------------

  /** How far a worker got with the event it claimed, and what it has read so far. The three reads are
      separate statements; the tables may move in between. */
  datatype Phase =
    | Claimed
    | ReadRow(row: Row)
    | ReadParticipants(row: Row, bags: Bags)
    | Loaded(row: Row, document: Document)
    | Indexed(row: Row)
    | Enqueued(row: Row)
    | EnqueueFailed

  /** What happened, claim by claim. A claim is an event and the lease version it was claimed under. */
  datatype Note =
    | DidIndex(claim: (nat, nat))
    | DidEnqueue(claim: (nat, nat), version: nat)
    | DidFailEnqueue(claim: (nat, nat))
    | DidFinish(claim: (nat, nat), row: Row)

  /** An embedding job on the queue, or its result while the queue still keeps it. */
  datatype Job = Job(input: EmbeddingInput, ran: bool)

  /** What a backfill read and is about to embed. */
  datatype Reading = Reading(message: MessageId, version: nat, input: EmbeddingInput)

  /** rows[e] is the outbox row of db.events[e]. A job is named by its message and version, and the queue
      refuses a name it holds. inFlight are the documents that were sent, with their versions: they
      outlive the claim, and any of them may arrive at any time, again even. past keeps the row each
      version of a message had, writes what the index accepted. */
  datatype State = State(
    db: Db, rows: seq<EventState>, claims: map<(nat, nat), Phase>,
    jobs: map<(MessageId, nat), Job>, readings: set<Reading>, inFlight: set<(Document, nat)>,
    index: map<MessageId, Entry>, past: map<(MessageId, nat), Row>, log: seq<Note>, writes: seq<IndexEvent>)

  datatype Config = Config(maxAttempts: int, queueing: bool, bump: nat)

  datatype Step =
    | Mutate(changes: seq<Change>, now: Time)
    | ClaimEvent(event: nat, worker: Worker, now: Time, duration: int)
    | LoadRow(claim: (nat, nat))
    | LoadParticipants(claim: (nat, nat))
    | LoadMemberships(claim: (nat, nat))
    | IndexDocument(claim: (nat, nat))
    | LoseAnswer(claim: (nat, nat))
    | EnqueueEmbedding(claim: (nat, nat), works: bool, landed: bool)
    | Finish(claim: (nat, nat), worker: Worker, now: Time)
    | GiveUp(claim: (nat, nat), worker: Worker, now: Time, reason: string)
    | Retry(claim: (nat, nat), worker: Worker, now: Time, reason: string, delay: int)
    | Crash(claim: (nat, nat))
    | Arrive(document: Document, version: nat)
    | RunJob(message: MessageId, version: nat, finishes: bool)
    | FailJob(message: MessageId, version: nat)
    | ForgetJob(message: MessageId, version: nat)
    | BackfillRead(message: MessageId)
    | BackfillWrite(reading: Reading)

  const START := State(EMPTY_DB, [], map[], map[], {}, {}, map[], map[], [], [])

  function FreshRows(n: nat, now: Time): (rows: seq<EventState>)
    ensures |rows| == n && forall i :: 0 <= i < n ==> rows[i] == OutboxLifecycle.Created(now)
  {
    if n == 0 then [] else FreshRows(n - 1, now) + [OutboxLifecycle.Created(now)]
  }

  function RowsNow(db: Db): map<(MessageId, nat), Row> {
    map id | id in db.messages :: (id, db.messages[id].version) := db.messages[id]
  }

  /** Whether the finished event may skip the enqueue. */
  predicate Exempt(c: Config, row: Row) {
    !c.queueing || row.isDeleted
  }

  predicate Enabled(c: Config, s: State, step: Step) {
    match step
    case Mutate(_, _) => true
    case ClaimEvent(e, w, now, duration) =>
      e < |s.rows| && |s.rows| <= |s.db.events|
      && Effective(s.rows[e], Claim(w, now, duration), c.maxAttempts)
    case LoadRow(k) =>
      k in s.claims && s.claims[k].Claimed? && k.0 < |s.db.events| && s.db.events[k.0].message in s.db.messages
    case LoadParticipants(k) => k in s.claims && s.claims[k].ReadRow? && k.0 < |s.db.events|
    case LoadMemberships(k) => k in s.claims && s.claims[k].ReadParticipants? && k.0 < |s.db.events|
    case IndexDocument(k) => k in s.claims && s.claims[k].Loaded? && k.0 < |s.db.events|
    case LoseAnswer(k) => k in s.claims && s.claims[k].Loaded? && k.0 < |s.db.events|
    case EnqueueEmbedding(k, _, _) =>
      k in s.claims && s.claims[k].Indexed? && !Exempt(c, s.claims[k].row) && k.0 < |s.db.events|
    case Finish(k, _, _) =>
      k in s.claims && k.0 < |s.rows|
      && (s.claims[k].Enqueued? || (s.claims[k].Indexed? && Exempt(c, s.claims[k].row)))
    case GiveUp(k, _, _, _) => k in s.claims && k.0 < |s.rows| && !s.claims[k].EnqueueFailed?
    case Retry(k, _, _, _, _) => k in s.claims && k.0 < |s.rows|
    case Crash(k) => k in s.claims
    case Arrive(document, version) => (document, version) in s.inFlight
    case RunJob(id, version, _) => (id, version) in s.jobs && !s.jobs[(id, version)].ran
    case FailJob(id, version) => (id, version) in s.jobs && !s.jobs[(id, version)].ran
    case ForgetJob(id, version) => (id, version) in s.jobs && s.jobs[(id, version)].ran
    case BackfillRead(id) => id in s.db.messages
    case BackfillWrite(reading) => reading in s.readings
  }

  /** A committed transaction on the tables, with a fresh outbox row for each event it appended. */
  function Mutated(s: State, db: Db, now: Time): State {
    var more := if |db.events| < |s.db.events| then 0 else |db.events| - |s.db.events|;
    s.(db := db, rows := s.rows + FreshRows(more, now), past := s.past + RowsNow(db))
  }

  /** Finishing, giving up and retrying are compare-and-set on the lease; either way the worker is done
      with the claim. */
  function Settle(c: Config, s: State, k: (nat, nat), m: Move): State
    requires k.0 < |s.rows|
  {
    s.(rows := s.rows[k.0 := OutboxLifecycle.Step(s.rows[k.0], m, c.maxAttempts)], claims := s.claims - {k})
  }

  /** A document reaches the index. */
  function StoreDocument(s: State, document: Document, version: nat): State {
    var stored := DocumentStored(document.id, document.version);
    s.(index := IndexWrite(s.index, document, version),
       writes := if AcceptsDocument(s.index, document, version) then s.writes + [stored] else s.writes)
  }

  /** A vector reaches the index. */
  function StoreVector(c: Config, s: State, id: MessageId, vector: Vector): State {
    s.(index := VectorWrite(s.index, id, vector, c.bump),
       writes := if AcceptsVector(s.index, id, vector) then s.writes + [VectorStored(id, vector)] else s.writes)
  }

  /** The queue takes a job whose name it does not hold; a refusal counts as success. */
  function WithJob(jobs: map<(MessageId, nat), Job>, id: MessageId, version: nat, input: EmbeddingInput)
      : map<(MessageId, nat), Job>
  {
    if (id, version) in jobs then jobs else jobs[(id, version) := Job(input, false)]
  }

  function Next(c: Config, s: State, step: Step): State
    requires Enabled(c, s, step)
  {
    match step
    case Mutate(changes, now) => Mutated(s, ApplyAll(s.db, changes), now)
    case ClaimEvent(e, w, now, duration) =>
      var row := OutboxLifecycle.Step(s.rows[e], Claim(w, now, duration), c.maxAttempts);
      s.(rows := s.rows[e := row], claims := s.claims[(e, row.row.lease.version) := Claimed])
    case LoadRow(k) => s.(claims := s.claims[k := ReadRow(s.db.messages[s.db.events[k.0].message])])
    case LoadParticipants(k) =>
      s.(claims := s.claims[k := ReadParticipants(s.claims[k].row, BagsOf(s.db, s.db.events[k.0].message))])
    case LoadMemberships(k) =>
      var id := s.db.events[k.0].message;
      s.(claims := s.claims[k := Loaded(s.claims[k].row,
                                        BuildDocument(id, s.claims[k].row, s.claims[k].bags, Folders(s.db, id)))])
    case IndexDocument(k) =>
      var document, version := s.claims[k].document, s.db.events[k.0].version;
      StoreDocument(s, document, version).(inFlight := s.inFlight + {(document, version)},
                                 claims := s.claims[k := Indexed(s.claims[k].row)], log := s.log + [DidIndex(k)])
    case LoseAnswer(k) => s.(inFlight := s.inFlight + {(s.claims[k].document, s.db.events[k.0].version)})
    case EnqueueEmbedding(k, works, landed) =>
      var row := s.claims[k].row;
      var id := s.db.events[k.0].message;
      var jobs := if works || landed then WithJob(s.jobs, id, row.version, LiveInput(row)) else s.jobs;
      if works
      then s.(jobs := jobs, claims := s.claims[k := Enqueued(row)], log := s.log + [DidEnqueue(k, row.version)])
      else s.(jobs := jobs, claims := s.claims[k := EnqueueFailed], log := s.log + [DidFailEnqueue(k)])
    case Finish(k, w, now) =>
      var m := Complete(w, k.1, now);
      var after := Settle(c, s, k, m);
      if Effective(s.rows[k.0], m, c.maxAttempts)
      then after.(log := s.log + [DidFinish(k, s.claims[k].row)]) else after
    case GiveUp(k, w, now, reason) => Settle(c, s, k, Abandon(w, k.1, now, reason))
    case Retry(k, w, now, reason, delay) => Settle(c, s, k, Fail(w, k.1, now, reason, delay))
    case Crash(k) => s.(claims := s.claims - {k})
    case Arrive(document, version) => StoreDocument(s, document, version)
    case RunJob(id, version, finishes) =>
      var job := s.jobs[(id, version)];
      StoreVector(c, s, id, Vector(version, job.input, Live)).(jobs := s.jobs[(id, version) := job.(ran := finishes)])
    case FailJob(id, version) => s.(jobs := s.jobs[(id, version) := s.jobs[(id, version)].(ran := true)])
    case ForgetJob(id, version) => s.(jobs := s.jobs - {(id, version)})
    case BackfillRead(id) =>
      s.(readings := s.readings + {Reading(id, s.db.messages[id].version, BackfillInput(s.db.messages[id]))})
    case BackfillWrite(reading) =>
      StoreVector(c, s, reading.message, Vector(reading.version, reading.input, Backfill))
  }

  /** A step that is not enabled does not happen. */
  function Do(c: Config, s: State, step: Step): State {
    if Enabled(c, s, step) then Next(c, s, step) else s
  }

  function RunFrom(c: Config, s: State, steps: seq<Step>): State {
    if steps == [] then s else Do(c, RunFrom(c, s, steps[..|steps| - 1]), steps[|steps| - 1])
  }

  function Reached(c: Config, steps: seq<Step>): State {
    RunFrom(c, START, steps)
  }
}
