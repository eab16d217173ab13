/**
 The mounted message send: insert the message or find the one an earlier call inserted, bind
 its media, write the created-event with its outbox row, fan out notifications, and commit or
 roll back. Calls interleave statement by statement; any statement may fail, a connection may
 vanish, and a commit may be applied although its acknowledgement is lost.

 A transaction's writes stay in its own record until it commits. The locks are the ones the
 statements take: the (sender, client_msg_id) index entry of an uncommitted insert, the message
 row and the upload rows locked while binding.
 */
module SendComposition {
  import opened Common

  type UserId = nat
  type Room = nat
  type ClientId = nat
  type MessageId = nat
  type UploadId = nat
  type EventId = nat
  type CallId = nat

  /** The idempotency key: `ux_messages_sender_client_msg_id`. */
  type Key = (UserId, ClientId)

  const MAX_MEDIA_PER_MESSAGE := 4

  datatype Error =
    | MessageContentRequired | IdempotencyKeyMismatch | MediaNotAvailable | MembershipRequired
    | IdempotencyConflict | DatabaseUnavailable

  /** A send as accepted by `prepare_http_send`; `body` is already masked. */
  datatype Request = Request(sender: UserId, room: Room, clientId: ClientId, body: Option<string>, uploads: seq<UploadId>)

  datatype Message = Message(id: MessageId, room: Room, sender: UserId, clientId: ClientId, body: Option<string>)

  /** `Unusable` covers pending, expired and deleted uploads. */
  datatype UploadStatus = Confirmed | Bound(message: MessageId) | Unusable
  datatype Upload = Upload(owner: UserId, room: Room, audio: bool, status: UploadStatus)

  /** A `message.created` event and the payload it carries. */
  datatype Event = Event(message: Message, media: seq<UploadId>)

  /** `byKey` is the unique index on (sender, client_msg_id). */
  datatype Db = Db(
    messages: map<MessageId, Message>,
    byKey: map<Key, MessageId>,
    attachments: map<MessageId, seq<UploadId>>,
    uploads: map<UploadId, Upload>,
    events: map<EventId, Event>,
    outbox: multiset<EventId>,
    fanouts: multiset<(MessageId, EventId)>)

  /** Progress of one call's transaction. */
  datatype Stage = Begun | Persisted | MediaBound | Recorded | Notified | Refused(error: Error)

  /**
   `created` is the inserted message, absent when an earlier one was found; `target` is its id.
   `binds` says whether `attachments` were newly bound by this transaction.
   */
  datatype Tx = Tx(
    request: Request, stage: Stage, created: Option<Message>, target: MessageId,
    attachments: seq<UploadId>, binds: bool, event: EventId)

  datatype Answer = Created(message: MessageId, media: seq<UploadId>) | Existing(message: MessageId, media: seq<UploadId>) | Failure(error: Error)

  /**
   History kept for the proofs: which event announces a committed message, which call inserted
   it, which message a call inserted, and what each call asked for.
   */
  datatype History = History(
    eventOf: map<MessageId, EventId>, author: map<MessageId, CallId>, wrote: map<CallId, MessageId>, asked: map<CallId, Request>)

  datatype State = State(db: Db, txs: map<CallId, Tx>, answers: map<CallId, Answer>, history: History)

  /** How a transaction ends once every statement succeeded. */
  datatype CommitFate = Acknowledged | AcknowledgementLost | NotApplied

  datatype Step =
    | Begin(call: CallId, request: Request)
    | Persist(call: CallId, newId: MessageId, fault: Option<Error>)
    | BindMedia(call: CallId, fault: Option<Error>)
    | Record(call: CallId, newId: EventId, fault: Option<Error>)
    | Notify(call: CallId, fault: Option<Error>)
    | Commit(call: CallId, fate: CommitFate)
    | Rollback(call: CallId, fails: bool)
    | Vanish(call: CallId)
    | AddUpload(upload: UploadId, row: Upload)
    | ExpireUpload(upload: UploadId)

  // ---------------------------------------------------------------------------------------
  // The statements
  // ---------------------------------------------------------------------------------------

  function KeyOf(m: Message): Key { (m.sender, m.clientId) }
  function RequestKey(r: Request): Key { (r.sender, r.clientId) }

  predicate BodyPresent(body: Option<string>) {
    body.Some? && body.value != ""
  }

  /** `validate_composed_http_message`. */
  function Prepare(request: Request, idempotencyKey: Option<ClientId>): Result<Request, Error> {
    if idempotencyKey.Some? && idempotencyKey.value != request.clientId then Err(IdempotencyKeyMismatch)
    else if !BodyPresent(request.body) && request.uploads == [] then Err(MessageContentRequired)
    else if |request.uploads| > MAX_MEDIA_PER_MESSAGE then Err(MediaNotAvailable)
    else Ok(request)
  }

  predicate Distinct(s: seq<UploadId>) {
    forall i, j :: 0 <= i < j < |s| ==> s[i] != s[j]
  }

  function EventsOf(events: map<EventId, Event>, m: MessageId): set<EventId> {
    set e | e in events && events[e].message.id == m
  }

  predicate OwnUploads(db: Db, r: Request) {
    forall u :: u in r.uploads ==> u in db.uploads && db.uploads[u].owner == r.sender && db.uploads[u].room == r.room
  }

  /** A voice message is one audio upload alone; anything else carries no audio. */
  predicate ValidComposition(db: Db, r: Request)
    requires OwnUploads(db, r)
  {
    || (forall u :: u in r.uploads ==> !db.uploads[u].audio)
    || (|r.uploads| == 1 && !BodyPresent(r.body))
  }

  /**
   `bind_authoritative_message_media`: the attachments of the message and whether they are newly
   bound; `None` is a refusal.
   */
  function Bind(db: Db, tx: Tx): Option<(seq<UploadId>, bool)> {
    var r := tx.request;
    var present := if tx.created.None? && tx.target in db.attachments then db.attachments[tx.target] else [];
    if |r.uploads| > MAX_MEDIA_PER_MESSAGE || !Distinct(r.uploads) then None
    else if r.uploads == [] then
      if BodyPresent(r.body) && present == [] then Some(([], false)) else None
    else if !OwnUploads(db, r) || !ValidComposition(db, r) then None
    else if forall u :: u in r.uploads ==> db.uploads[u].status == Confirmed then
      if present == [] then Some((r.uploads, true)) else None
    else if forall u :: u in r.uploads ==> db.uploads[u].status == Bound(tx.target) then
      if present == r.uploads then Some((r.uploads, false)) else None
    else None
  }

  function BindAll(uploads: map<UploadId, Upload>, bound: seq<UploadId>, m: MessageId): map<UploadId, Upload> {
    map u | u in uploads :: if u in bound then uploads[u].(status := Bound(m)) else uploads[u]
  }

  /** What the transaction's writes make of the database. */
  function Committed(db: Db, tx: Tx): Db {
    var uploads := if tx.binds then BindAll(db.uploads, tx.attachments, tx.target) else db.uploads;
    match tx.created
    case None =>
      if tx.binds then db.(uploads := uploads, attachments := db.attachments[tx.target := tx.attachments]) else db
    case Some(message) =>
      Db(db.messages[tx.target := message],
         db.byKey[KeyOf(message) := tx.target],
         db.attachments[tx.target := tx.attachments],
         uploads,
         db.events[tx.event := Event(message, tx.attachments)],
         db.outbox + multiset{tx.event},
         db.fanouts + multiset{(tx.target, tx.event)})
  }

  // ---------------------------------------------------------------------------------------
  // Interleaved calls
  // ---------------------------------------------------------------------------------------

  predicate Live(tx: Tx) { !tx.stage.Begun? && !tx.stage.Refused? }
  predicate Inserting(tx: Tx) { Live(tx) && tx.created.Some? }
  predicate Binding(tx: Tx) { Live(tx) && !tx.stage.Persisted? }
  predicate HasEvent(tx: Tx) { Inserting(tx) && tx.stage in {Recorded, Notified} }

  ghost predicate Unlocked(s: State, call: CallId) {
    && call in s.txs
    && forall c :: c in s.txs && c != call && Binding(s.txs[c]) ==>
         && s.txs[c].target != s.txs[call].target
         && forall u :: u in s.txs[call].request.uploads ==> u !in s.txs[c].request.uploads
  }

  /** No other open transaction has inserted this key: its index entry is not waited for. */
  ghost predicate KeyUnlocked(s: State, call: CallId, key: Key) {
    forall c :: c in s.txs && c != call && Inserting(s.txs[c]) ==> RequestKey(s.txs[c].request) != key
  }

  ghost predicate FreshMessage(s: State, id: MessageId) {
    && id !in s.db.messages
    && forall c :: c in s.txs && Live(s.txs[c]) ==> s.txs[c].target != id
  }

  ghost predicate FreshEvent(s: State, id: EventId) {
    && id !in s.db.events
    && forall c :: c in s.txs && HasEvent(s.txs[c]) ==> s.txs[c].event != id
  }

  ghost predicate At(s: State, call: CallId, stage: Stage) {
    call in s.txs && s.txs[call].stage == stage
  }

  ghost predicate Enabled(s: State, step: Step) {
    match step
    case Begin(c, r) => c !in s.txs && c !in s.answers && Prepare(r, None).Ok?
    case Persist(c, newId, fault) =>
      && At(s, c, Begun)
      && (fault.None? ==> KeyUnlocked(s, c, RequestKey(s.txs[c].request)) && FreshMessage(s, newId))
    case BindMedia(c, fault) => At(s, c, Persisted) && (fault.None? ==> Unlocked(s, c))
    case Record(c, newId, fault) => At(s, c, MediaBound) && (fault.None? ==> FreshEvent(s, newId))
    case Notify(c, fault) => At(s, c, Recorded)
    case Commit(c, fate) => At(s, c, Notified)
    case Rollback(c, fails) => c in s.txs && s.txs[c].stage.Refused?
    case Vanish(c) => c in s.txs
    case AddUpload(u, row) => u !in s.db.uploads && !row.status.Bound?
    case ExpireUpload(u) =>
      && u in s.db.uploads && s.db.uploads[u].status == Confirmed
      && forall c :: c in s.txs && Binding(s.txs[c]) ==> u !in s.txs[c].request.uploads
  }

  /** `existing_message`: an idempotent retry must repeat the room and the body. */
  function PersistExisting(db: Db, tx: Tx, m: MessageId): Tx {
    if m !in db.messages || db.messages[m].room != tx.request.room || db.messages[m].body != tx.request.body
    then tx.(stage := Refused(IdempotencyConflict))
    else if |EventsOf(db.events, m)| != 1 then tx.(stage := Refused(DatabaseUnavailable))
    else tx.(stage := Persisted, created := None, target := m)
  }

  function PersistNew(tx: Tx, id: MessageId): Tx {
    var r := tx.request;
    tx.(stage := Persisted, created := Some(Message(id, r.room, r.sender, r.clientId, r.body)), target := id)
  }

  /** The transaction after a statement that goes through, or is refused with `fault`. */
  function Advance(db: Db, tx: Tx, step: Step): Tx {
    match step
    case Persist(_, newId, fault) =>
      if fault.Some? then tx.(stage := Refused(fault.value))
      else
        var key := RequestKey(tx.request);
        if key in db.byKey then PersistExisting(db, tx, db.byKey[key]) else PersistNew(tx, newId)
    case BindMedia(_, fault) =>
      if fault.Some? then tx.(stage := Refused(fault.value)) else (
      match Bind(db, tx)
      case None => tx.(stage := Refused(MediaNotAvailable))
      case Some((attachments, binds)) => tx.(stage := MediaBound, attachments := attachments, binds := binds))
    case Record(_, newId, fault) =>
      if fault.Some? then tx.(stage := Refused(fault.value)) else tx.(stage := Recorded, event := newId)
    case Notify(_, fault) =>
      if fault.Some? then tx.(stage := Refused(fault.value)) else tx.(stage := Notified)
    case _ => tx
  }

  function Reply(tx: Tx): Answer {
    if tx.created.Some? then Created(tx.target, tx.attachments) else Existing(tx.target, tx.attachments)
  }

  ghost function Apply(s: State, step: Step): State
    requires Enabled(s, step)
  {
    match step
    case Begin(c, r) =>
      s.(txs := s.txs[c := Tx(r, Begun, None, 0, [], false, 0)], history := s.history.(asked := s.history.asked[c := r]))
    case Commit(c, fate) =>
      var tx := s.txs[c];
      State(
        if fate.NotApplied? then s.db else Committed(s.db, tx),
        s.txs - {c},
        s.answers[c := if fate.Acknowledged? then Reply(tx) else Failure(DatabaseUnavailable)],
        if fate.NotApplied? || tx.created.None? then s.history
        else s.history.(
          eventOf := s.history.eventOf[tx.target := tx.event], author := s.history.author[tx.target := c],
          wrote := s.history.wrote[c := tx.target]))
    case Rollback(c, fails) =>
      s.(txs := s.txs - {c},
         answers := s.answers[c := Failure(if fails then DatabaseUnavailable else s.txs[c].stage.error)])
    case Vanish(c) => s.(txs := s.txs - {c}, answers := s.answers[c := Failure(DatabaseUnavailable)])
    case AddUpload(u, row) => s.(db := s.db.(uploads := s.db.uploads[u := row]))
    case ExpireUpload(u) => s.(db := s.db.(uploads := s.db.uploads[u := s.db.uploads[u].(status := Unusable)]))
    case _ => s.(txs := s.txs[step.call := Advance(s.db, s.txs[step.call], step)])
  }

  ghost predicate Runs(s: State, steps: seq<Step>, t: State)
    decreases |steps|
  {
    if steps == [] then s == t
    else Enabled(s, steps[0]) && Runs(Apply(s, steps[0]), steps[1..], t)
  }

  const EMPTY := State(
    Db(map[], map[], map[], map[], map[], multiset{}, multiset{}), map[], map[], History(map[], map[], map[], map[]))

  ghost predicate Reachable(t: State) {
    exists steps :: Runs(EMPTY, steps, t)
  }

  // ---------------------------------------------------------------------------------------
  // One call from start to end
  // ---------------------------------------------------------------------------------------

  /** How the database answers one call, and the identities it would generate. */
  datatype Environment = Environment(
    begin: bool, persist: Option<Error>, newMessage: MessageId, bind: Option<Error>,
    record: Option<Error>, newEvent: EventId, notify: Option<Error>, commit: CommitFate, rollbackFails: bool)

  function Opened(r: Request): Tx {
    Tx(r, Begun, None, 0, [], false, 0)
  }

  function Statement(c: CallId, env: Environment, k: nat): Step
    requires k < 4
  {
    if k == 0 then Persist(c, env.newMessage, env.persist)
    else if k == 1 then BindMedia(c, env.bind)
    else if k == 2 then Record(c, env.newEvent, env.record)
    else Notify(c, env.notify)
  }

  function StageBefore(step: Step): Stage {
    match step
    case Persist(_, _, _) => Begun
    case BindMedia(_, _) => Persisted
    case Record(_, _, _) => MediaBound
    case _ => Recorded
  }

  /** The transaction after its remaining statements, from number `k` on. */
  function Complete(db: Db, tx: Tx, env: Environment, k: nat): Tx
    decreases 4 - k
  {
    if tx.stage.Refused? || k >= 4 then tx
    else Complete(db, Advance(db, tx, Statement(0, env, k)), env, k + 1)
  }

  lemma UnrollCall(db: Db, r: Request, env: Environment)
    ensures var a := Advance(db, Opened(r), Persist(0, env.newMessage, env.persist));
      var b := Advance(db, a, BindMedia(0, env.bind));
      var c := Advance(db, b, Record(0, env.newEvent, env.record));
      Complete(db, Opened(r), env, 0) ==
        if a.stage.Refused? then a else if b.stage.Refused? then b else if c.stage.Refused? then c
        else Advance(db, c, Notify(0, env.notify))
  {
    var a := Advance(db, Opened(r), Statement(0, env, 0));
    var b := Advance(db, a, Statement(0, env, 1));
    var c := Advance(db, b, Statement(0, env, 2));
    var d := Advance(db, c, Statement(0, env, 3));
    assert Complete(db, d, env, 4) == d;
    assert Complete(db, c, env, 3) == if c.stage.Refused? then c else d;
    assert Complete(db, b, env, 2) == if b.stage.Refused? then b else Complete(db, c, env, 3);
    assert Complete(db, a, env, 1) == if a.stage.Refused? then a else Complete(db, b, env, 2);
    assert Complete(db, Opened(r), env, 0) == Complete(db, a, env, 1);
  }

  /** `finish_feature`: commit a success, roll back a refusal. */
  function Finish(db: Db, tx: Tx, env: Environment): (Db, Answer) {
    if tx.stage.Refused? then (db, Failure(if env.rollbackFails then DatabaseUnavailable else tx.stage.error))
    else match env.commit
      case Acknowledged => (Committed(db, tx), Reply(tx))
      case AcknowledgementLost => (Committed(db, tx), Failure(DatabaseUnavailable))
      case NotApplied => (db, Failure(DatabaseUnavailable))
  }

  /** One call from its preparation to its end, with no other transaction open. */
  function Send(db: Db, r: Request, idempotencyKey: Option<ClientId>, env: Environment): (Db, Answer) {
    var prepared := Prepare(r, idempotencyKey);
    if prepared.Err? then (db, Failure(prepared.error))
    else if !env.begin then (db, Failure(DatabaseUnavailable))
    else Finish(db, Complete(db, Opened(r), env, 0), env)
  }

  class Database {
    var db: Db

    constructor (db: Db)
      ensures this.db == db
    {
      this.db := db;
    }

    /** `send_message_http` with no other transaction open. */
    method SendMessageHttp(r: Request, idempotencyKey: Option<ClientId>, env: Environment) returns (answer: Answer)
      modifies this
      ensures (db, answer) == Send(old(db), r, idempotencyKey, env)
    {
      var prepared := Prepare(r, idempotencyKey);
      if prepared.Err? {
        return Failure(prepared.error);
      }
      if !env.begin {
        return Failure(DatabaseUnavailable);
      }
      var tx := Advance(db, Opened(r), Persist(0, env.newMessage, env.persist));
      if !tx.stage.Refused? {
        tx := Advance(db, tx, BindMedia(0, env.bind));
        if !tx.stage.Refused? {
          tx := Advance(db, tx, Record(0, env.newEvent, env.record));
          if !tx.stage.Refused? {
            tx := Advance(db, tx, Notify(0, env.notify));
          }
        }
      }
      assert tx == Complete(db, Opened(r), env, 0) by {
        UnrollCall(db, r, env);
      }
      if tx.stage.Refused? {
        return Failure(if env.rollbackFails then DatabaseUnavailable else tx.stage.error);
      }
      if !env.commit.NotApplied? {
        db := Committed(db, tx);
      }
      answer := if env.commit.Acknowledged? then Reply(tx) else Failure(DatabaseUnavailable);
    }
  }

  // ---------------------------------------------------------------------------------------
  // What the database always satisfies
  // ---------------------------------------------------------------------------------------

  /** The index holds each message under its key. */
  ghost predicate IndexOk(messages: map<MessageId, Message>, byKey: map<Key, MessageId>) {
    && (forall m :: m in messages ==>
          messages[m].id == m && KeyOf(messages[m]) in byKey && byKey[KeyOf(messages[m])] == m)
    && (forall k :: k in byKey ==> byKey[k] in messages && KeyOf(messages[byKey[k]]) == k)
  }

  /** Each message has its event, and each event its message. */
  ghost predicate Matched(messages: map<MessageId, Message>, events: map<EventId, Event>,
                          eventOf: map<MessageId, EventId>) {
    && eventOf.Keys == messages.Keys
    && (forall m :: m in messages ==> eventOf[m] in events && events[eventOf[m]].message == messages[m])
    && (forall e :: e in events ==> events[e].message.id in messages && eventOf[events[e].message.id] == e)
  }

  /** Each event is queued once and fanned out once, and nothing else is. */
  ghost predicate Queued(events: map<EventId, Event>, outbox: multiset<EventId>,
                         fanouts: multiset<(MessageId, EventId)>) {
    && (forall e :: e in events ==> outbox[e] == 1 && fanouts[(events[e].message.id, e)] == 1)
    && (forall e :: e in outbox ==> e in events)
    && (forall f :: f in fanouts ==> f.1 in events && f.0 == events[f.1].message.id)
  }

  ghost predicate EventsOk(messages: map<MessageId, Message>, events: map<EventId, Event>,
                           outbox: multiset<EventId>, fanouts: multiset<(MessageId, EventId)>,
                           eventOf: map<MessageId, EventId>) {
    Matched(messages, events, eventOf) && Queued(events, outbox, fanouts)
  }

  /** Attachments and upload states are each other's inverse. */
  ghost predicate MediaOk(ids: set<MessageId>, attachments: map<MessageId, seq<UploadId>>, uploads: map<UploadId, Upload>) {
    && attachments.Keys == ids
    && (forall m :: m in attachments ==> Distinct(attachments[m]))
    && (forall m, u :: m in attachments && u in attachments[m] ==> u in uploads && uploads[u].status == Bound(m))
    && (forall u :: u in uploads && uploads[u].status.Bound? ==>
          uploads[u].status.message in attachments && u in attachments[uploads[u].status.message])
  }

  ghost predicate DbOk(db: Db, eventOf: map<MessageId, EventId>) {
    && IndexOk(db.messages, db.byKey)
    && EventsOk(db.messages, db.events, db.outbox, db.fanouts, eventOf)
    && MediaOk(db.messages.Keys, db.attachments, db.uploads)
  }

  /** What an inserting transaction relies on. */
  ghost predicate InsertOk(db: Db, tx: Tx) {
    && tx.created == PersistNew(tx, tx.target).created
    && tx.target !in db.messages && RequestKey(tx.request) !in db.byKey
  }

  ghost predicate BindOk(db: Db, tx: Tx) {
    && tx.attachments == tx.request.uploads && Distinct(tx.attachments)
    && (tx.binds ==> forall u :: u in tx.attachments ==> u in db.uploads && db.uploads[u].status == Confirmed)
    && (tx.binds ==> tx.attachments != [])
    && (tx.created.Some? && !tx.binds ==> tx.attachments == [])
    && (tx.created.None? ==>
          tx.target in db.attachments && db.attachments[tx.target] == if tx.binds then [] else tx.attachments)
  }

  ghost predicate TxOk(db: Db, tx: Tx) {
    && (Inserting(tx) ==> InsertOk(db, tx))
    && (Live(tx) && tx.created.None? ==>
          RequestKey(tx.request) in db.byKey && db.byKey[RequestKey(tx.request)] == tx.target)
    && (Binding(tx) ==> BindOk(db, tx))
    && (HasEvent(tx) ==> tx.event !in db.events)
  }

  /** Two open transactions never hold the same lock or new identity. */
  ghost predicate Apart(t: Tx, u: Tx) {
    && (Inserting(t) && Inserting(u) ==> RequestKey(t.request) != RequestKey(u.request))
    && (Binding(t) && Binding(u) ==> t.target != u.target && Disjoint(t.request.uploads, u.request.uploads))
    && (HasEvent(t) && HasEvent(u) ==> t.event != u.event)
    && (Live(t) && Live(u) && (Inserting(t) || Inserting(u)) ==> t.target != u.target)
  }

  predicate Disjoint(a: seq<UploadId>, b: seq<UploadId>) {
    forall u :: u in a ==> u !in b
  }

  /** The call that inserted a message answered "created", or could not tell. */
  ghost predicate AnswersOk(ids: set<MessageId>, answers: map<CallId, Answer>,
                            author: map<MessageId, CallId>, wrote: map<CallId, MessageId>) {
    && author.Keys == ids
    && (forall m :: m in author ==> author[m] in wrote && wrote[author[m]] == m)
    && (forall c :: c in wrote ==>
          && wrote[c] in ids && wrote[c] in author && author[wrote[c]] == c && c in answers
          && (answers[c] == Failure(DatabaseUnavailable) || (answers[c].Created? && answers[c].message == wrote[c])))
    && (forall c :: c in answers && answers[c].Created? ==> c in wrote)
    && (forall c :: c in answers && answers[c].Existing? ==> answers[c].message in ids)
  }

  ghost predicate TxsOk(db: Db, txs: map<CallId, Tx>) {
    && (forall c :: c in txs ==> TxOk(db, txs[c]))
    && (forall c, d {:trigger Apart(txs[c], txs[d])} :: c in txs && d in txs && c != d ==> Apart(txs[c], txs[d]))
  }

  ghost predicate Inv(s: State) {
    && DbOk(s.db, s.history.eventOf)
    && TxsOk(s.db, s.txs)
    && AnswersOk(s.db.messages.Keys, s.answers, s.history.author, s.history.wrote)
    && s.answers.Keys !! s.txs.Keys
  }

  // ---------------------------------------------------------------------------------------
  // Every commit keeps it
  // ---------------------------------------------------------------------------------------

  lemma InsertKeepsIndex(messages: map<MessageId, Message>, byKey: map<Key, MessageId>, message: Message)
    requires IndexOk(messages, byKey) && message.id !in messages && KeyOf(message) !in byKey
    ensures IndexOk(messages[message.id := message], byKey[KeyOf(message) := message.id])
  {
  }

  lemma RecordKeepsEvents(messages: map<MessageId, Message>, events: map<EventId, Event>,
                          outbox: multiset<EventId>, fanouts: multiset<(MessageId, EventId)>,
                          eventOf: map<MessageId, EventId>, message: Message, media: seq<UploadId>, e: EventId)
    requires EventsOk(messages, events, outbox, fanouts, eventOf)
    requires message.id !in messages && e !in events
    ensures EventsOk(messages[message.id := message], events[e := Event(message, media)],
                     outbox + multiset{e}, fanouts + multiset{(message.id, e)}, eventOf[message.id := e])
  {
    RecordKeepsQueued(events, outbox, fanouts, e, Event(message, media));
  }

  lemma RecordKeepsQueued(events: map<EventId, Event>, outbox: multiset<EventId>,
                          fanouts: multiset<(MessageId, EventId)>, e: EventId, event: Event)
    requires Queued(events, outbox, fanouts) && e !in events
    ensures Queued(events[e := event], outbox + multiset{e}, fanouts + multiset{(event.message.id, e)})
  {
    assert outbox[e] == 0;
    assert fanouts[(event.message.id, e)] == 0;
  }

  lemma BindKeepsMedia(ids: set<MessageId>, attachments: map<MessageId, seq<UploadId>>, uploads: map<UploadId, Upload>,
                       m: MessageId, bound: seq<UploadId>)
    requires MediaOk(ids, attachments, uploads)
    requires m in ids ==> attachments[m] == []
    requires Distinct(bound) && forall u :: u in bound ==> u in uploads && uploads[u].status == Confirmed
    ensures MediaOk(ids + {m}, attachments[m := bound], BindAll(uploads, bound, m))
  {
  }

  lemma BindNothing(uploads: map<UploadId, Upload>, m: MessageId)
    ensures BindAll(uploads, [], m) == uploads
  {
  }

  lemma CommitKeepsMedia(db: Db, tx: Tx)
    requires MediaOk(db.messages.Keys, db.attachments, db.uploads)
    requires Binding(tx) && BindOk(db, tx) && (tx.created.Some? ==> tx.target !in db.messages)
    ensures var after := Committed(db, tx); MediaOk(after.messages.Keys, after.attachments, after.uploads)
  {
    BindNothing(db.uploads, tx.target);
    if tx.binds || tx.created.Some? {
      BindKeepsMedia(db.messages.Keys, db.attachments, db.uploads, tx.target, tx.attachments);
      assert Committed(db, tx).messages.Keys == db.messages.Keys + {tx.target};
    }
  }

  lemma CommitKeepsDb(db: Db, eventOf: map<MessageId, EventId>, tx: Tx)
    requires DbOk(db, eventOf) && TxOk(db, tx) && tx.stage == Notified
    ensures DbOk(Committed(db, tx), if tx.created.Some? then eventOf[tx.target := tx.event] else eventOf)
  {
    CommitKeepsMedia(db, tx);
    if tx.created.Some? {
      var message := tx.created.value;
      InsertKeepsIndex(db.messages, db.byKey, message);
      RecordKeepsEvents(db.messages, db.events, db.outbox, db.fanouts, eventOf, message, tx.attachments, tx.event);
    }
  }

  /** A commit leaves every other open transaction as good as it was. */
  lemma CommitKeepsOthers(db: Db, tx: Tx, other: Tx)
    requires TxOk(db, tx) && tx.stage == Notified && TxOk(db, other) && Apart(tx, other) && Apart(other, tx)
    ensures TxOk(Committed(db, tx), other)
  {
    var after := Committed(db, tx);
    if Binding(other) {
      assert Disjoint(tx.attachments, other.attachments);
      assert forall u :: u in other.attachments && u in db.uploads ==> after.uploads[u] == db.uploads[u];
    }
  }

  lemma InsertKeepsAnswers(ids: set<MessageId>, answers: map<CallId, Answer>, author: map<MessageId, CallId>,
                           wrote: map<CallId, MessageId>, c: CallId, m: MessageId, answer: Answer)
    requires AnswersOk(ids, answers, author, wrote) && c !in answers && m !in ids
    requires answer == Failure(DatabaseUnavailable) || (answer.Created? && answer.message == m)
    ensures AnswersOk(ids + {m}, answers[c := answer], author[m := c], wrote[c := m])
  {
  }

  lemma AnswerKeepsAnswers(ids: set<MessageId>, answers: map<CallId, Answer>, author: map<MessageId, CallId>,
                           wrote: map<CallId, MessageId>, c: CallId, answer: Answer)
    requires AnswersOk(ids, answers, author, wrote) && c !in answers
    requires answer.Failure? || (answer.Existing? && answer.message in ids)
    ensures AnswersOk(ids, answers[c := answer], author, wrote)
  {
  }

  lemma LeavingKeepsTxs(db: Db, txs: map<CallId, Tx>, c: CallId)
    requires TxsOk(db, txs)
    ensures TxsOk(db, txs - {c})
  {
  }

  lemma CommitKeepsTxs(db: Db, txs: map<CallId, Tx>, c: CallId)
    requires TxsOk(db, txs) && c in txs && txs[c].stage == Notified
    ensures TxsOk(Committed(db, txs[c]), txs - {c})
  {
    forall d | d in txs && d != c ensures TxOk(Committed(db, txs[c]), txs[d]) {
      assert Apart(txs[c], txs[d]) && Apart(txs[d], txs[c]);
      CommitKeepsOthers(db, txs[c], txs[d]);
    }
  }

  lemma CommitKeepsAnswers(s: State, c: CallId, fate: CommitFate)
    requires AnswersOk(s.db.messages.Keys, s.answers, s.history.author, s.history.wrote)
    requires At(s, c, Notified) && c !in s.answers && (s.txs[c].target in s.db.messages <==> s.txs[c].created.None?)
    ensures var t := Apply(s, Commit(c, fate));
      AnswersOk(t.db.messages.Keys, t.answers, t.history.author, t.history.wrote)
  {
    var tx, ids, h := s.txs[c], s.db.messages.Keys, s.history;
    var answer := if fate.Acknowledged? then Reply(tx) else Failure(DatabaseUnavailable);
    if !fate.NotApplied? && tx.created.Some? {
      InsertKeepsAnswers(ids, s.answers, h.author, h.wrote, c, tx.target, answer);
      assert Committed(s.db, tx).messages.Keys == ids + {tx.target};
    } else {
      AnswerKeepsAnswers(ids, s.answers, h.author, h.wrote, c, answer);
    }
  }

  lemma TargetKnown(db: Db, tx: Tx)
    requires IndexOk(db.messages, db.byKey) && TxOk(db, tx) && Live(tx)
    ensures tx.target in db.messages <==> tx.created.None?
  {
  }

  lemma CommitKeepsInv(s: State, c: CallId, fate: CommitFate)
    requires Inv(s) && Enabled(s, Commit(c, fate))
    ensures Inv(Apply(s, Commit(c, fate)))
  {
    if fate.NotApplied? {
      LeavingKeepsTxs(s.db, s.txs, c);
    } else {
      CommitKeepsDb(s.db, s.history.eventOf, s.txs[c]);
      CommitKeepsTxs(s.db, s.txs, c);
    }
    TargetKnown(s.db, s.txs[c]);
    CommitKeepsAnswers(s, c, fate);
  }

  // ---------------------------------------------------------------------------------------
  // So does every other step
  // ---------------------------------------------------------------------------------------

  predicate Advances(step: Step) {
    step.Persist? || step.BindMedia? || step.Record? || step.Notify?
  }

  lemma BindSucceeds(db: Db, tx: Tx)
    requires MediaOk(db.messages.Keys, db.attachments, db.uploads) && Bind(db, tx).Some?
    requires tx.created.Some? ==> tx.target !in db.messages
    requires tx.created.None? ==> tx.target in db.messages
    ensures BindOk(db, tx.(stage := MediaBound, attachments := Bind(db, tx).value.0, binds := Bind(db, tx).value.1))
  {
    assert tx.created.Some? ==> forall u :: u in db.uploads ==> db.uploads[u].status != Bound(tx.target);
  }

  lemma PersistKeepsTx(db: Db, tx: Tx, newId: MessageId)
    requires IndexOk(db.messages, db.byKey) && newId !in db.messages && tx.stage == Begun
    ensures TxOk(db, Advance(db, tx, Persist(0, newId, None)))
  {
    var key := RequestKey(tx.request);
    if key in db.byKey {
      assert PersistExisting(db, tx, db.byKey[key]).request == tx.request;
    }
  }

  lemma BindKeepsTx(db: Db, tx: Tx)
    requires IndexOk(db.messages, db.byKey) && MediaOk(db.messages.Keys, db.attachments, db.uploads)
    requires tx.stage == Persisted && TxOk(db, tx)
    ensures TxOk(db, Advance(db, tx, BindMedia(0, None)))
  {
    if Bind(db, tx).Some? {
      BindSucceeds(db, tx);
    }
  }

  lemma AdvanceKeepsTx(s: State, step: Step)
    requires IndexOk(s.db.messages, s.db.byKey) && MediaOk(s.db.messages.Keys, s.db.attachments, s.db.uploads)
    requires Enabled(s, step) && Advances(step) && TxOk(s.db, s.txs[step.call])
    ensures TxOk(s.db, Advance(s.db, s.txs[step.call], step))
  {
    var tx := s.txs[step.call];
    if step.fault.None? {
      match step {
        case Persist(_, newId, _) => PersistKeepsTx(s.db, tx, newId);
        case BindMedia(_, _) => BindKeepsTx(s.db, tx);
        case _ =>
      }
    }
  }

  lemma AdvanceKeepsApart(s: State, step: Step, d: CallId)
    requires Enabled(s, step) && Advances(step) && d in s.txs && d != step.call
    requires Apart(s.txs[step.call], s.txs[d]) && TxOk(s.db, s.txs[d]) && IndexOk(s.db.messages, s.db.byKey)
    ensures Apart(Advance(s.db, s.txs[step.call], step), s.txs[d])
    ensures Apart(s.txs[d], Advance(s.db, s.txs[step.call], step))
  {
  }

  lemma AdvanceKeepsInv(s: State, step: Step)
    requires Inv(s) && Enabled(s, step) && Advances(step)
    ensures Inv(Apply(s, step))
  {
    var t := Apply(s, step);
    AdvanceKeepsTx(s, step);
    forall c, d | c in t.txs && d in t.txs && c != d ensures Apart(t.txs[c], t.txs[d]) {
      assert Apart(s.txs[c], s.txs[d]) && Apart(s.txs[d], s.txs[c]);
      if c == step.call {
        AdvanceKeepsApart(s, step, d);
      } else if d == step.call {
        AdvanceKeepsApart(s, step, c);
      }
    }
  }

  lemma BeginKeepsTxs(db: Db, txs: map<CallId, Tx>, c: CallId, tx: Tx)
    requires TxsOk(db, txs) && c !in txs && tx.stage == Begun
    ensures TxsOk(db, txs[c := tx])
  {
  }

  /** Leaving a transaction, or starting one, touches no other. */
  lemma EndKeepsInv(s: State, step: Step)
    requires Inv(s) && Enabled(s, step) && (step.Rollback? || step.Vanish? || step.Begin?)
    ensures Inv(Apply(s, step))
  {
    var c, h := step.call, s.history;
    if step.Begin? {
      BeginKeepsTxs(s.db, s.txs, c, Tx(step.request, Begun, None, 0, [], false, 0));
    } else {
      LeavingKeepsTxs(s.db, s.txs, c);
      AnswerKeepsAnswers(s.db.messages.Keys, s.answers, h.author, h.wrote, c, Apply(s, step).answers[c]);
    }
  }

  lemma UploadChangeKeepsMedia(ids: set<MessageId>, attachments: map<MessageId, seq<UploadId>>,
                               uploads: map<UploadId, Upload>, u: UploadId, row: Upload)
    requires MediaOk(ids, attachments, uploads) && !row.status.Bound?
    requires u in uploads ==> !uploads[u].status.Bound?
    ensures MediaOk(ids, attachments, uploads[u := row])
  {
  }

  lemma UploadChangeKeepsTx(db: Db, tx: Tx, u: UploadId, row: Upload)
    requires TxOk(db, tx) && (Binding(tx) && u in db.uploads ==> u !in tx.request.uploads)
    ensures TxOk(db.(uploads := db.uploads[u := row]), tx)
  {
  }

  lemma UploadStepKeepsInv(s: State, step: Step)
    requires Inv(s) && Enabled(s, step) && (step.AddUpload? || step.ExpireUpload?)
    ensures Inv(Apply(s, step))
  {
    var t := Apply(s, step);
    var u, row := step.upload, t.db.uploads[step.upload];
    UploadChangeKeepsMedia(s.db.messages.Keys, s.db.attachments, s.db.uploads, u, row);
    forall c | c in t.txs ensures TxOk(t.db, t.txs[c]) {
      UploadChangeKeepsTx(s.db, s.txs[c], u, row);
    }
  }

  /** Every step of every call keeps the invariant. */
  lemma StepKeepsInv(s: State, step: Step)
    requires Inv(s) && Enabled(s, step)
    ensures Inv(Apply(s, step))
  {
    if step.Commit? {
      CommitKeepsInv(s, step.call, step.fate);
    } else if Advances(step) {
      AdvanceKeepsInv(s, step);
    } else if step.AddUpload? || step.ExpireUpload? {
      UploadStepKeepsInv(s, step);
    } else {
      EndKeepsInv(s, step);
    }
  }

  lemma {:induction false} RunKeepsInv(s: State, steps: seq<Step>, t: State)
    requires Inv(s) && Runs(s, steps, t)
    ensures Inv(t)
    decreases |steps|
  {
    if steps != [] {
      StepKeepsInv(s, steps[0]);
      RunKeepsInv(Apply(s, steps[0]), steps[1..], t);
    }
  }

  lemma ReachableKeepsInv(t: State)
    requires Reachable(t)
    ensures Inv(t)
  {
    var steps :| Runs(EMPTY, steps, t);
    RunKeepsInv(EMPTY, steps, t);
  }

  // ---------------------------------------------------------------------------------------
  // What every run guarantees
  // ---------------------------------------------------------------------------------------

  /** Exactly one created-event, one outbox row and one fan-out for message `m`, and they agree. */
  ghost predicate Announced(db: Db, m: MessageId) {
    m in db.messages &&
    exists e ::
      && EventsOf(db.events, m) == {e} && db.events[e].message == db.messages[m]
      && db.outbox[e] == 1
      && db.fanouts[(m, e)] == 1 && (forall f :: (m, f) in db.fanouts ==> f == e)
  }

  /**
   Whatever fails and however calls interleave: a key has at most one committed message, every
   committed message is announced exactly once, and nothing is announced without its message.
   */
  lemma EveryMessageIsAnnouncedOnce(t: State)
    requires Reachable(t)
    ensures forall m, n :: m in t.db.messages && n in t.db.messages ==>
      KeyOf(t.db.messages[m]) == KeyOf(t.db.messages[n]) ==> m == n
    ensures forall m :: m in t.db.messages ==> Announced(t.db, m)
    ensures forall e :: e in t.db.events ==> t.db.events[e].message.id in t.db.messages
    ensures forall e :: e in t.db.outbox ==> e in t.db.events
    ensures forall f :: f in t.db.fanouts ==> f.0 in t.db.messages
  {
    ReachableKeepsInv(t);
    KeysAreUnique(t.db.messages, t.db.byKey);
    EventsAnnounce(t.db, t.history.eventOf);
  }

  lemma KeysAreUnique(messages: map<MessageId, Message>, byKey: map<Key, MessageId>)
    requires IndexOk(messages, byKey)
    ensures forall m, n :: m in messages && n in messages ==> KeyOf(messages[m]) == KeyOf(messages[n]) ==> m == n
  {
  }

  lemma EventsAnnounce(db: Db, eventOf: map<MessageId, EventId>)
    requires EventsOk(db.messages, db.events, db.outbox, db.fanouts, eventOf)
    requires forall m :: m in db.messages ==> db.messages[m].id == m
    ensures forall m :: m in db.messages ==> Announced(db, m)
    ensures forall e :: e in db.events ==> db.events[e].message.id in db.messages
    ensures forall e :: e in db.outbox ==> e in db.events
    ensures forall f :: f in db.fanouts ==> f.0 in db.messages
  {
    forall m | m in db.messages ensures Announced(db, m) {
      var e := eventOf[m];
      assert EventsOf(db.events, m) == {e};
    }
  }

  /**
   What a caller may conclude from its answer: "created" and "existing" name a committed message;
   a refusal with anything but `DatabaseUnavailable` left nothing behind; and no call ever
   inserts two messages.
   */
  lemma AnswersAreTruthful(t: State, c: CallId)
    requires Reachable(t) && c in t.answers
    ensures t.history.author.Keys == t.db.messages.Keys
    ensures t.answers[c].Created? ==>
      t.answers[c].message in t.history.author && t.history.author[t.answers[c].message] == c
    ensures t.answers[c].Existing? ==> t.answers[c].message in t.db.messages
    ensures t.answers[c].Failure? && t.answers[c].error != DatabaseUnavailable ==> c !in t.history.author.Values
    ensures forall m, n :: m in t.history.author && n in t.history.author ==>
      t.history.author[m] == t.history.author[n] ==> m == n
  {
    ReachableKeepsInv(t);
    AnswersMeaning(t.db.messages.Keys, t.answers, t.history.author, t.history.wrote, c);
  }

  lemma AnswersMeaning(ids: set<MessageId>, answers: map<CallId, Answer>, author: map<MessageId, CallId>,
                       wrote: map<CallId, MessageId>, c: CallId)
    requires AnswersOk(ids, answers, author, wrote) && c in answers
    ensures answers[c].Created? ==> answers[c].message in author && author[answers[c].message] == c
    ensures answers[c].Failure? && answers[c].error != DatabaseUnavailable ==> c !in author.Values
    ensures forall m, n :: m in author && n in author ==> author[m] == author[n] ==> m == n
  {
  }

  /** The event of every message carries exactly the attachments bound to it. */
  ghost predicate Agreement(db: Db) {
    forall e :: e in db.events ==>
      && db.events[e].message.id in db.attachments
      && db.events[e].media == db.attachments[db.events[e].message.id]
  }

  /** The request repeats the key of a committed message that has no media, and brings some. */
  predicate LateMedia(db: Db, r: Request) {
    && RequestKey(r) in db.byKey && db.byKey[RequestKey(r)] in db.attachments
    && db.attachments[db.byKey[RequestKey(r)]] == []
    && r.uploads != []
  }

  /**
   Event payload and attachments can come apart, and exactly one kind of call does it: a commit
   keeps them in agreement if and only if its request is not late with its media.
   */
  lemma CommitKeepsAgreementExactly(s: State, c: CallId)
    requires Inv(s) && At(s, c, Notified) && Agreement(s.db)
    ensures Agreement(Committed(s.db, s.txs[c])) <==> !LateMedia(s.db, s.txs[c].request)
  {
    var tx := s.txs[c];
    assert TxOk(s.db, tx);
    assert LateMedia(s.db, tx.request) <==> tx.created.None? && tx.binds;
    if tx.created.Some? {
      InsertAgrees(s.db, tx);
    } else if tx.binds {
      var e := LateMediaDisagrees(s.db, s.history.eventOf, tx);
    }
  }

  lemma InsertAgrees(db: Db, tx: Tx)
    requires Agreement(db) && db.attachments.Keys == db.messages.Keys
    requires tx.created.Some? && tx.created.value.id == tx.target && tx.target !in db.messages
    ensures Agreement(Committed(db, tx))
  {
  }

  lemma LateMediaDisagrees(db: Db, eventOf: map<MessageId, EventId>, tx: Tx) returns (e: EventId)
    requires Agreement(db) && tx.created.None? && tx.binds && tx.attachments != []
    requires tx.target in db.attachments && db.attachments[tx.target] == []
    requires tx.target in eventOf && eventOf[tx.target] in db.events
          && db.events[eventOf[tx.target]].message.id == tx.target
    ensures Differs(Committed(db, tx), e)
  {
    e := eventOf[tx.target];
    assert db.events[e].media == [];
  }

  /** The event of a message that has attachments carries others. */
  ghost predicate Differs(db: Db, e: EventId) {
    && e in db.events && db.events[e].message.id in db.attachments
    && db.attachments[db.events[e].message.id] != []
    && db.events[e].media != db.attachments[db.events[e].message.id]
  }

  /** The step commits, with effect, a call that is late with its media. */
  ghost predicate CommitsLate(s: State, step: Step) {
    && step.Commit? && !step.fate.NotApplied?
    && At(s, step.call, Notified) && LateMedia(s.db, s.txs[step.call].request)
  }

  ghost predicate NeverLate(s: State, steps: seq<Step>)
    decreases |steps|
  {
    steps != [] ==>
      Enabled(s, steps[0]) && !CommitsLate(s, steps[0]) && NeverLate(Apply(s, steps[0]), steps[1..])
  }

  /** Nothing repairs a difference: events and non-empty attachment lists are never rewritten. */
  lemma DifferenceStays(s: State, step: Step, e: EventId)
    requires Inv(s) && Enabled(s, step) && Differs(s.db, e)
    ensures Differs(Apply(s, step).db, e)
  {
    if step.Commit? {
      WriterIsAlone(s, step.call);
      CommitStepKeepsDifference(s, step.call, step.fate, e);
    } else {
      OtherStepKeepsDifference(s, step, e);
    }
  }

  /** No other transaction has written what this one is about to write. */
  predicate Alone(db: Db, tx: Tx) {
    && db.attachments.Keys == db.messages.Keys
    && (tx.created.Some? ==> tx.target !in db.messages && tx.event !in db.events)
    && (tx.created.None? && tx.binds ==> tx.target in db.attachments && db.attachments[tx.target] == [])
  }

  lemma WriterIsAlone(s: State, c: CallId)
    requires Inv(s) && At(s, c, Notified)
    ensures Alone(s.db, s.txs[c])
  {
    assert TxOk(s.db, s.txs[c]);
  }

  lemma CommitStepKeepsDifference(s: State, c: CallId, fate: CommitFate, e: EventId)
    requires At(s, c, Notified) && Alone(s.db, s.txs[c]) && Differs(s.db, e)
    ensures Differs(Apply(s, Commit(c, fate)).db, e)
  {
    CommitKeepsDifference(s.db, s.txs[c], e);
  }

  lemma OtherStepKeepsDifference(s: State, step: Step, e: EventId)
    requires Enabled(s, step) && Differs(s.db, e) && !step.Commit?
    ensures Differs(Apply(s, step).db, e)
  {
  }

  lemma CommitKeepsDifference(db: Db, tx: Tx, e: EventId)
    requires Differs(db, e) && Alone(db, tx)
    ensures Differs(Committed(db, tx), e)
  {
  }

  lemma {:induction false} DifferenceStaysThroughRun(s: State, steps: seq<Step>, t: State, e: EventId)
    requires Inv(s) && Runs(s, steps, t) && Differs(s.db, e)
    ensures Differs(t.db, e)
    decreases |steps|
  {
    if steps != [] {
      StepKeepsInv(s, steps[0]);
      DifferenceStays(s, steps[0], e);
      DifferenceStaysThroughRun(Apply(s, steps[0]), steps[1..], t, e);
    }
  }

  lemma LateCommitDiffers(s: State, step: Step) returns (e: EventId)
    requires Inv(s) && Enabled(s, step) && CommitsLate(s, step) && Agreement(s.db)
    ensures Differs(Apply(s, step).db, e)
  {
    var tx := s.txs[step.call];
    assert TxOk(s.db, tx);
    assert tx.created.None? && tx.binds;
    e := LateMediaDisagrees(s.db, s.history.eventOf, tx);
  }

  lemma TimelyStepAgrees(s: State, step: Step)
    requires Inv(s) && Enabled(s, step) && !CommitsLate(s, step) && Agreement(s.db)
    ensures Agreement(Apply(s, step).db)
  {
    if step.Commit? && !step.fate.NotApplied? {
      CommitKeepsAgreementExactly(s, step.call);
    }
  }

  lemma {:induction false} AgreementThroughRun(s: State, steps: seq<Step>, t: State)
    requires Inv(s) && Agreement(s.db) && Runs(s, steps, t)
    ensures Agreement(t.db) <==> NeverLate(s, steps)
    decreases |steps|
  {
    if steps != [] {
      var next := Apply(s, steps[0]);
      StepKeepsInv(s, steps[0]);
      if CommitsLate(s, steps[0]) {
        var e := LateCommitDiffers(s, steps[0]);
        DifferenceStaysThroughRun(next, steps[1..], t, e);
      } else {
        TimelyStepAgrees(s, steps[0]);
        AgreementThroughRun(next, steps[1..], t);
      }
    }
  }

  /**
   Over every run: events and attachments agree at its end if and only if none of its effective
   commits was late with its media.
   */
  lemma AgreementIsExact(steps: seq<Step>, t: State)
    requires Runs(EMPTY, steps, t)
    ensures Agreement(t.db) <==> NeverLate(EMPTY, steps)
  {
    AgreementThroughRun(EMPTY, steps, t);
  }

  /** Retries repeat the media of the call they retry: `plan` gives each key its uploads. */
  ghost predicate FollowsPlan(plan: Key -> seq<UploadId>, steps: seq<Step>) {
    forall i :: 0 <= i < |steps| && steps[i].Begin? ==> steps[i].request.uploads == plan(RequestKey(steps[i].request))
  }

  ghost predicate PlanInv(plan: Key -> seq<UploadId>, s: State) {
    && Agreement(s.db)
    && (forall m :: m in s.db.messages && m in s.db.attachments ==> s.db.attachments[m] == plan(KeyOf(s.db.messages[m])))
    && (forall c :: c in s.txs ==> s.txs[c].request.uploads == plan(RequestKey(s.txs[c].request)))
  }

  lemma CommitKeepsPlan(plan: Key -> seq<UploadId>, s: State, c: CallId, fate: CommitFate)
    requires Inv(s) && PlanInv(plan, s) && Enabled(s, Commit(c, fate))
    ensures PlanInv(plan, Apply(s, Commit(c, fate)))
  {
    var tx := s.txs[c];
    if !fate.NotApplied? {
      CommitKeepsAgreementExactly(s, c);
      assert TxOk(s.db, tx);
      assert tx.created.None? ==> s.db.attachments[tx.target] == tx.request.uploads;
    }
  }

  lemma StepKeepsPlan(plan: Key -> seq<UploadId>, s: State, step: Step)
    requires Inv(s) && PlanInv(plan, s) && Enabled(s, step)
    requires step.Begin? ==> step.request.uploads == plan(RequestKey(step.request))
    ensures PlanInv(plan, Apply(s, step))
  {
    if step.Commit? {
      CommitKeepsPlan(plan, s, step.call, step.fate);
    } else {
      OtherStepKeepsPlan(plan, s, step);
    }
  }

  lemma OtherStepKeepsPlan(plan: Key -> seq<UploadId>, s: State, step: Step)
    requires PlanInv(plan, s) && Enabled(s, step) && !step.Commit?
    requires step.Begin? ==> step.request.uploads == plan(RequestKey(step.request))
    ensures PlanInv(plan, Apply(s, step))
  {
    if Advances(step) {
      assert Advance(s.db, s.txs[step.call], step).request == s.txs[step.call].request;
    }
  }

  lemma {:induction false} RunKeepsPlan(plan: Key -> seq<UploadId>, s: State, steps: seq<Step>, t: State)
    requires Inv(s) && PlanInv(plan, s) && Runs(s, steps, t) && FollowsPlan(plan, steps)
    ensures PlanInv(plan, t)
    decreases |steps|
  {
    if steps != [] {
      StepKeepsPlan(plan, s, steps[0]);
      StepKeepsInv(s, steps[0]);
      assert forall i :: 0 <= i < |steps[1..]| ==> steps[1..][i] == steps[i + 1];
      RunKeepsPlan(plan, Apply(s, steps[0]), steps[1..], t);
    }
  }

  /** If retries repeat their media, every event carries exactly its message's attachments. */
  lemma FaithfulRetriesAgree(plan: Key -> seq<UploadId>, steps: seq<Step>, t: State)
    requires Runs(EMPTY, steps, t) && FollowsPlan(plan, steps)
    ensures Agreement(t.db)
  {
    RunKeepsPlan(plan, EMPTY, steps, t);
  }

  // ---------------------------------------------------------------------------------------
  // A refused call leaves no trace
  // ---------------------------------------------------------------------------------------

  lemma Extend(s: State, step: Step, steps: seq<Step>, t: State)
    requires Enabled(s, step) && Runs(Apply(s, step), steps, t)
    ensures Runs(s, [step] + steps, t)
  {
    assert ([step] + steps)[1..] == steps;
  }

  predicate IsOf(step: Step, c: CallId) {
    !step.AddUpload? && !step.ExpireUpload? && step.call == c
  }

  /** The steps of everyone but call `c`, in order. */
  ghost function Others(steps: seq<Step>, c: CallId): seq<Step> {
    if steps == [] then []
    else if IsOf(steps[0], c) then Others(steps[1..], c)
    else [steps[0]] + Others(steps[1..], c)
  }

  /** The state as if call `c` had never been made. */
  ghost function Without(s: State, c: CallId): State {
    s.(txs := s.txs - {c}, answers := s.answers - {c}, history := s.history.(asked := s.history.asked - {c}))
  }

  predicate Writes(step: Step, c: CallId) {
    step.Commit? && step.call == c && !step.fate.NotApplied?
  }

  lemma OwnStepIsInvisible(s: State, step: Step, c: CallId)
    requires Enabled(s, step) && IsOf(step, c) && !Writes(step, c)
    ensures Without(Apply(s, step), c) == Without(s, c)
  {
  }

  lemma OtherStepStaysPossible(s: State, step: Step, c: CallId)
    requires Enabled(s, step) && !IsOf(step, c)
    ensures Enabled(Without(s, c), step)
  {
    var u := Without(s, c);
    match step {
      case Persist(d, newId, fault) =>
        assert fault.None? ==> KeyUnlocked(u, d, RequestKey(s.txs[d].request)) && FreshMessage(u, newId);
      case BindMedia(d, fault) => assert fault.None? ==> Unlocked(u, d);
      case Record(d, newId, fault) => assert fault.None? ==> FreshEvent(u, newId);
      case _ =>
    }
  }

  lemma MapsWithout<V>(m: map<CallId, V>, c: CallId, d: CallId, v: V)
    requires c != d
    ensures (m - {c})[d := v] == m[d := v] - {c} && (m - {c}) - {d} == (m - {d}) - {c}
  {
  }

  lemma OtherCommitIsUnaffected(s: State, d: CallId, fate: CommitFate, c: CallId)
    requires Enabled(s, Commit(d, fate)) && Enabled(Without(s, c), Commit(d, fate)) && c != d
    ensures Apply(Without(s, c), Commit(d, fate)) == Without(Apply(s, Commit(d, fate)), c)
  {
    var answer := if fate.Acknowledged? then Reply(s.txs[d]) else Failure(DatabaseUnavailable);
    MapsWithout(s.answers, c, d, answer);
    MapsWithout(s.txs, c, d, s.txs[d]);
  }

  lemma OtherStatementIsUnaffected(s: State, step: Step, c: CallId)
    requires Enabled(s, step) && Enabled(Without(s, c), step) && Advances(step) && step.call != c
    ensures Apply(Without(s, c), step) == Without(Apply(s, step), c)
  {
    MapsWithout(s.txs, c, step.call, Advance(s.db, s.txs[step.call], step));
  }

  /** Another call's step is possible without `c`, and does the same. */
  lemma OtherStepIsUnaffected(s: State, step: Step, c: CallId)
    requires Enabled(s, step) && !IsOf(step, c)
    ensures Enabled(Without(s, c), step)
    ensures Apply(Without(s, c), step) == Without(Apply(s, step), c)
  {
    OtherStepStaysPossible(s, step, c);
    match step {
      case Commit(d, fate) => OtherCommitIsUnaffected(s, d, fate, c);
      case Begin(d, r) =>
        MapsWithout(s.txs, c, d, Opened(r));
        MapsWithout(s.history.asked, c, d, r);
      case Rollback(d, fails) =>
        MapsWithout(s.txs, c, d, s.txs[d]);
        MapsWithout(s.answers, c, d, Failure(if fails then DatabaseUnavailable else s.txs[d].stage.error));
      case Vanish(d) =>
        MapsWithout(s.txs, c, d, s.txs[d]);
        MapsWithout(s.answers, c, d, Failure(DatabaseUnavailable));
      case AddUpload(_, _) =>
      case ExpireUpload(_) =>
      case _ => OtherStatementIsUnaffected(s, step, c);
    }
  }

  lemma {:induction false} UnwrittenCallLeavesNoTrace(s: State, steps: seq<Step>, t: State, c: CallId)
    requires Runs(s, steps, t) && forall i :: 0 <= i < |steps| ==> !Writes(steps[i], c)
    ensures Runs(Without(s, c), Others(steps, c), Without(t, c))
    decreases |steps|
  {
    if steps != [] {
      var next := Apply(s, steps[0]);
      assert forall i :: 0 <= i < |steps[1..]| ==> steps[1..][i] == steps[i + 1];
      UnwrittenCallLeavesNoTrace(next, steps[1..], t, c);
      if IsOf(steps[0], c) {
        OwnStepIsInvisible(s, steps[0], c);
      } else {
        OtherStepIsUnaffected(s, steps[0], c);
        Extend(Without(s, c), steps[0], Others(steps[1..], c), Without(t, c));
      }
    }
  }

  lemma AnswerStays(s: State, step: Step, c: CallId)
    requires Enabled(s, step) && c in s.answers && c !in s.txs
    ensures c in Apply(s, step).answers && Apply(s, step).answers[c] == s.answers[c]
  {
  }

  lemma StepKeepsAnsweredClosed(s: State, step: Step)
    requires Enabled(s, step) && s.answers.Keys !! s.txs.Keys
    ensures Apply(s, step).answers.Keys !! Apply(s, step).txs.Keys
  {
  }

  lemma {:induction false} AnswersStay(s: State, steps: seq<Step>, t: State, c: CallId)
    requires s.answers.Keys !! s.txs.Keys && Runs(s, steps, t) && c in s.answers
    ensures c in t.answers && t.answers[c] == s.answers[c]
    decreases |steps|
  {
    if steps != [] {
      StepKeepsAnsweredClosed(s, steps[0]);
      AnswerStays(s, steps[0], c);
      AnswersStay(Apply(s, steps[0]), steps[1..], t, c);
    }
  }

  lemma WriterIsAnswered(s: State, step: Step)
    requires Enabled(s, step) && step.Commit?
    ensures var t := Apply(s, step);
      step.call in t.answers && (t.answers[step.call].Failure? ==> t.answers[step.call].error == DatabaseUnavailable)
  {
  }

  lemma {:induction false} WriterIsNotRefused(s: State, steps: seq<Step>, t: State, i: nat)
    requires s.answers.Keys !! s.txs.Keys && Runs(s, steps, t) && i < |steps| && steps[i].Commit?
    ensures steps[i].call in t.answers
    ensures t.answers[steps[i].call].Failure? ==> t.answers[steps[i].call].error == DatabaseUnavailable
    decreases |steps|
  {
    var next := Apply(s, steps[0]);
    StepKeepsAnsweredClosed(s, steps[0]);
    if i == 0 {
      WriterIsAnswered(s, steps[0]);
      AnswersStay(next, steps[1..], t, steps[0].call);
    } else {
      assert steps[1..][i - 1] == steps[i];
      WriterIsNotRefused(next, steps[1..], t, i - 1);
    }
  }

  /**
   A call refused with anything but `DatabaseUnavailable` leaves no trace at all: everyone else's
   steps alone form a run, to the same database, the same answers and the same open transactions.
   */
  lemma RefusedCallLeavesNoTrace(steps: seq<Step>, t: State, c: CallId)
    requires Runs(EMPTY, steps, t) && c in t.answers
    requires t.answers[c].Failure? && t.answers[c].error != DatabaseUnavailable
    ensures Runs(EMPTY, Others(steps, c), Without(t, c)) && Without(t, c).db == t.db
  {
    forall i | 0 <= i < |steps| ensures !Writes(steps[i], c) {
      if Writes(steps[i], c) {
        WriterIsNotRefused(EMPTY, steps, t, i);
      }
    }
    UnwrittenCallLeavesNoTrace(EMPTY, steps, t, c);
    assert Without(EMPTY, c) == EMPTY;
  }

  // ---------------------------------------------------------------------------------------
  // A retry that brings media to a message sent without
  // ---------------------------------------------------------------------------------------

  lemma {:induction false} Join(s: State, a: seq<Step>, m: State, b: seq<Step>, t: State)
    requires Runs(s, a, m) && Runs(m, b, t)
    ensures Runs(s, a + b, t)
    decreases |a|
  {
    if a == [] {
      assert a + b == b;
    } else {
      assert (a + b)[1..] == a[1..] + b;
      Join(Apply(s, a[0]), a[1..], m, b, t);
    }
  }

  /** With no other transaction open, a statement is never blocked. */
  lemma SoloStep(s: State, c: CallId, tx: Tx, step: Step)
    requires s.txs == map[c := tx] && Advances(step) && step.call == c && tx.stage == StageBefore(step)
    requires step.Persist? ==> step.newId !in s.db.messages
    requires step.Record? ==> step.newId !in s.db.events
    ensures Enabled(s, step) && Apply(s, step) == s.(txs := map[c := Advance(s.db, tx, step)])
  {
    assert s.txs[c := Advance(s.db, tx, step)] == map[c := Advance(s.db, tx, step)];
  }

  lemma LastStepRuns(s: State, c: CallId, tx: Tx, env: Environment) returns (steps: seq<Step>, t: State)
    requires s.txs == map[c := tx] && (tx.stage.Refused? || tx.stage == Notified)
    ensures Runs(s, steps, t) && t.txs == map[] && t.answers.Keys == s.answers.Keys + {c}
    ensures (t.db, t.answers[c]) == Finish(s.db, tx, env)
  {
    var last := if tx.stage.Refused? then Rollback(c, env.rollbackFails) else Commit(c, env.commit);
    t := Apply(s, last);
    Extend(s, last, [], t);
    steps := [last] + [];
  }

  /** The statements of an undisturbed call from number `k` on, and its end, form a run. */
  lemma {:induction false} StatementsRun(s: State, c: CallId, tx: Tx, env: Environment, k: nat)
    returns (steps: seq<Step>, t: State)
    requires k <= 4 && s.txs == map[c := tx] && env.newMessage !in s.db.messages && env.newEvent !in s.db.events
    requires tx.stage.Refused? || (if k < 4 then tx.stage == StageBefore(Statement(c, env, k)) else tx.stage == Notified)
    ensures Runs(s, steps, t) && t.txs == map[] && t.answers.Keys == s.answers.Keys + {c}
    ensures (t.db, t.answers[c]) == Finish(s.db, Complete(s.db, tx, env, k), env)
    decreases 4 - k
  {
    if tx.stage.Refused? || k == 4 {
      steps, t := LastStepRuns(s, c, tx, env);
    } else {
      var step := Statement(c, env, k);
      SoloStep(s, c, tx, step);
      var rest;
      rest, t := StatementsRun(Apply(s, step), c, Advance(s.db, tx, step), env, k + 1);
      Extend(s, step, rest, t);
      steps := [step] + rest;
    }
  }

  /** `send_message_http` without competitors is one of the runs, so every run property covers it. */
  lemma CallIsARun(s: State, c: CallId, r: Request, env: Environment) returns (steps: seq<Step>, t: State)
    requires s.txs == map[] && c !in s.answers && Prepare(r, None).Ok?
    requires env.newMessage !in s.db.messages && env.newEvent !in s.db.events
    ensures Runs(s, steps, t) && t.txs == map[] && t.answers.Keys == s.answers.Keys + {c}
    ensures (t.db, t.answers[c]) == Finish(s.db, Complete(s.db, Opened(r), env, 0), env)
  {
    var begin := Begin(c, r);
    var s1 := Apply(s, begin);
    assert s1.txs == map[c := Opened(r)];
    var rest;
    rest, t := StatementsRun(s1, c, Opened(r), env, 0);
    Extend(s, begin, rest, t);
    steps := [begin] + rest;
  }

  const UPLOAD := Upload(1, 1, false, Confirmed)
  const PLAIN := Request(1, 1, 1, Some("hi"), [])
  const CALM := Environment(true, None, 0, None, None, 0, None, Acknowledged, false)

  /** A calm call that persists and binds commits what it bound. */
  lemma CalmCall(db: Db, r: Request, env: Environment, persisted: Tx, bound: Tx)
    requires env.persist.None? && env.bind.None? && env.record.None? && env.notify.None? && env.commit.Acknowledged?
    requires persisted == Advance(db, Opened(r), Persist(0, env.newMessage, None)) && persisted.stage == Persisted
    requires bound == Advance(db, persisted, BindMedia(0, None)) && bound.stage == MediaBound
    ensures Finish(db, Complete(db, Opened(r), env, 0), env).0
         == Committed(db, bound.(stage := Notified, event := env.newEvent))
  {
    UnrollCall(db, r, env);
  }

  /** "hi" sent without media. */
  lemma PlainSend() returns (steps: seq<Step>, t: State)
    ensures Runs(EMPTY, steps, t) && t.txs == map[] && t.answers.Keys == {0}
    ensures var message := Message(0, 1, 1, 1, Some("hi"));
      t.db == Db(map[0 := message], map[(1, 1) := 0], map[0 := []], map[0 := UPLOAD],
                 map[0 := Event(message, [])], multiset{0}, multiset{(0, 0)})
  {
    var add := AddUpload(0, UPLOAD);
    var s := Apply(EMPTY, add);
    var persisted := PersistNew(Opened(PLAIN), 0);
    CalmCall(s.db, PLAIN, CALM, persisted, persisted.(stage := MediaBound));
    var call;
    call, t := CallIsARun(s, 0, PLAIN, CALM);
    Extend(EMPTY, add, call, t);
    steps := [add] + call;
  }

  /** Sending "hi" without media and then retrying with an upload parts the event from the message. */
  lemma LateMediaRun() returns (steps: seq<Step>, t: State)
    ensures Runs(EMPTY, steps, t) && !Agreement(t.db)
  {
    var first, s := PlainSend();
    var late, env := PLAIN.(uploads := [0]), CALM.(newMessage := 1, newEvent := 1);
    assert EventsOf(s.db.events, 0) == {0};
    var persisted := Opened(late).(stage := Persisted, target := 0);
    var bound := persisted.(stage := MediaBound, attachments := [0], binds := true);
    assert Advance(s.db, Opened(late), Persist(0, 1, None)) == persisted;
    assert Bind(s.db, persisted) == Some(([0], true));
    CalmCall(s.db, late, env, persisted, bound);
    var call;
    call, t := CallIsARun(s, 1, late, env);
    assert t.db.events[0].media == [] && t.db.attachments[0] == [0];
    Join(EMPTY, first, s, call, t);
    steps := first + call;
  }
}
