/**
 What the mounted send answers, told from the request and the committed tables alone: for every database
 that a run can leave behind, every answer if and only if its case, and what each leaves in the tables.
 */
module SendAnswers {
  import opened Common
  import opened SendComposition
  import opened SendContent

  // ---------------------------------------------------------------------------------------
  // The cases
  // ---------------------------------------------------------------------------------------

  predicate HasText(r: Request) {
    r.body.Some? && r.body.value != ""
  }

  predicate KeyFits(r: Request, idempotencyKey: Option<ClientId>) {
    idempotencyKey.None? || idempotencyKey.value == r.clientId
  }

  predicate Accepted(r: Request, idempotencyKey: Option<ClientId>) {
    KeyFits(r, idempotencyKey) && (HasText(r) || r.uploads != []) && |r.uploads| <= 4
  }

  /** Message `m` was sent by the same sender under the same client id. */
  predicate Takes(db: Db, r: Request, m: MessageId) {
    m in db.messages && db.messages[m].sender == r.sender && db.messages[m].clientId == r.clientId
  }

  predicate Matches(db: Db, r: Request, m: MessageId) {
    Takes(db, r, m) && db.messages[m].room == r.room && db.messages[m].body == r.body
  }

  ghost predicate Free(db: Db, r: Request) {
    forall m :: m in db.messages ==> !Takes(db, r, m)
  }

  /** The key belongs to a message with another room or body. */
  ghost predicate Conflicts(db: Db, r: Request) {
    exists m :: Takes(db, r, m) && !Matches(db, r, m)
  }

  /** The uploads are distinct, the sender's own for that room, confirmed, and audio only alone without text. */
  ghost predicate Usable(db: Db, r: Request) {
    && (forall i, j :: 0 <= i < j < |r.uploads| ==> r.uploads[i] != r.uploads[j])
    && (forall u :: u in r.uploads ==>
          u in db.uploads && db.uploads[u].owner == r.sender && db.uploads[u].room == r.room && db.uploads[u].status == Confirmed)
    && ((forall u :: u in r.uploads ==> !db.uploads[u].audio) || (|r.uploads| == 1 && !HasText(r)))
  }

  /** The call repeats message `m` with the media it has. */
  ghost predicate Repeats(db: Db, r: Request, m: MessageId) {
    Matches(db, r, m) && m in db.attachments && db.attachments[m] == r.uploads
  }

  /** The call brings media to message `m`, which has none. */
  ghost predicate BringsMedia(db: Db, r: Request, m: MessageId) {
    Matches(db, r, m) && m in db.attachments && db.attachments[m] == [] && r.uploads != [] && Usable(db, r)
  }

  /** The call can go through. */
  ghost predicate Fits(db: Db, r: Request) {
    (Free(db, r) && Usable(db, r)) || exists m :: Repeats(db, r, m) || BringsMedia(db, r, m)
  }

  /** The uploads of the request are bound to `m`, and the others are as they were. */
  ghost predicate Binds(before: map<UploadId, Upload>, after: map<UploadId, Upload>, r: Request, m: MessageId) {
    && after.Keys == before.Keys
    && forall u :: u in before ==> after[u] == if u in r.uploads then before[u].(status := Bound(m)) else before[u]
  }

  /** The request's message with its media, its event, its outbox row and its fan-out are added, and nothing else changes. */
  ghost predicate Inserts(before: Db, after: Db, r: Request, m: MessageId, e: EventId) {
    var message := Message(m, r.room, r.sender, r.clientId, r.body);
    && after.messages == before.messages[m := message]
    && after.byKey == before.byKey[(r.sender, r.clientId) := m]
    && after.attachments == before.attachments[m := r.uploads]
    && Binds(before.uploads, after.uploads, r, m)
    && after.events == before.events[e := Event(message, r.uploads)]
    && after.outbox == before.outbox + multiset{e}
    && after.fanouts == before.fanouts + multiset{(m, e)}
  }

  /** The media are attached to message `m`, and nothing else changes: its event stays as it was. */
  ghost predicate Attaches(before: Db, after: Db, r: Request, m: MessageId) {
    && Binds(before.uploads, after.uploads, r, m)
    && after == before.(attachments := before.attachments[m := r.uploads], uploads := after.uploads)
  }

  /** The answer of a call that nothing disturbs, and what it leaves behind: each if and only if its case. */
  ghost predicate CalmOutcome(db: Db, r: Request, idempotencyKey: Option<ClientId>, env: Environment, after: Db, answer: Answer) {
    && (answer == Failure(IdempotencyKeyMismatch) <==> !KeyFits(r, idempotencyKey))
    && (answer == Failure(MessageContentRequired) <==> KeyFits(r, idempotencyKey) && !HasText(r) && r.uploads == [])
    && (answer == Failure(IdempotencyConflict) <==> Accepted(r, idempotencyKey) && Conflicts(db, r))
    && (answer == Failure(MediaNotAvailable) <==>
          || (KeyFits(r, idempotencyKey) && |r.uploads| > 4)
          || (Accepted(r, idempotencyKey) && !Conflicts(db, r) && !Fits(db, r)))
    && (answer.Created? <==> Accepted(r, idempotencyKey) && Free(db, r) && Usable(db, r))
    && (answer.Created? ==>
          answer == Created(env.newMessage, r.uploads) && Inserts(db, after, r, env.newMessage, env.newEvent))
    && (answer.Existing? <==> Accepted(r, idempotencyKey) && exists m :: Repeats(db, r, m) || BringsMedia(db, r, m))
    && (forall m :: Accepted(r, idempotencyKey) && Repeats(db, r, m) ==> answer == Existing(m, r.uploads) && after == db)
    && (forall m :: Accepted(r, idempotencyKey) && BringsMedia(db, r, m) ==>
          answer == Existing(m, r.uploads) && Attaches(db, after, r, m))
    && (answer.Failure? ==> after == db)
  }

  predicate Undisturbed(env: Environment) {
    && env.begin && env.persist.None? && env.bind.None? && env.record.None? && env.notify.None?
    && !env.rollbackFails && env.commit == Acknowledged
  }

  /** What a call may generate is new, and the tables are as every run leaves them. */
  ghost predicate Sound(db: Db, eventOf: map<MessageId, EventId>, env: Environment) {
    DbOk(db, eventOf) && MessagesOk(db) && env.newMessage !in db.messages && env.newEvent !in db.events
  }

  // ---------------------------------------------------------------------------------------
  // The statements meet their cases
  // ---------------------------------------------------------------------------------------

  lemma KeyIsTaken(db: Db, r: Request)
    requires IndexOk(db.messages, db.byKey)
    ensures RequestKey(r) in db.byKey ==> Takes(db, r, db.byKey[RequestKey(r)])
    ensures forall m :: Takes(db, r, m) ==> RequestKey(r) in db.byKey && db.byKey[RequestKey(r)] == m
    ensures Free(db, r) <==> RequestKey(r) !in db.byKey
  {
    forall m | Takes(db, r, m) ensures RequestKey(r) in db.byKey && db.byKey[RequestKey(r)] == m {
      assert KeyOf(db.messages[m]) == RequestKey(r);
    }
  }

  lemma OneEvent(db: Db, eventOf: map<MessageId, EventId>, m: MessageId)
    requires IndexOk(db.messages, db.byKey) && Matched(db.messages, db.events, eventOf) && m in db.messages
    ensures |EventsOf(db.events, m)| == 1
  {
    assert EventsOf(db.events, m) == {eventOf[m]};
  }

  lemma BindsNew(db: Db, tx: Tx)
    requires MediaOk(db.messages.Keys, db.attachments, db.uploads)
    requires tx.created.Some? && tx.target !in db.messages && |tx.request.uploads| <= 4
    requires HasText(tx.request) || tx.request.uploads != []
    ensures Bind(db, tx) == if Usable(db, tx.request) then Some((tx.request.uploads, tx.request.uploads != [])) else None
  {
    var r := tx.request;
    assert forall u :: u in db.uploads ==> db.uploads[u].status != Bound(tx.target);
    if r.uploads != [] {
      assert r.uploads[0] in r.uploads;
    }
  }

  lemma BindsExisting(db: Db, tx: Tx, m: MessageId)
    requires MediaOk(db.messages.Keys, db.attachments, db.uploads) && MessagesOk(db)
    requires tx.created.None? && tx.target == m && Matches(db, tx.request, m) && |tx.request.uploads| <= 4
    requires HasText(tx.request) || tx.request.uploads != []
    ensures Bind(db, tx) ==
      if Repeats(db, tx.request, m) then Some((tx.request.uploads, false))
      else if BringsMedia(db, tx.request, m) then Some((tx.request.uploads, true))
      else None
  {
    var r := tx.request;
    assert WellComposed(db.messages[m], db.attachments[m], db.uploads);
    if r.uploads != [] {
      assert r.uploads[0] in r.uploads;
      if Repeats(db, r, m) {
        assert OwnUploads(db, r) && ValidComposition(db, r) && Distinct(r.uploads);
        assert db.uploads[r.uploads[0]].status == Bound(m);
      }
    }
  }

  /** The transaction after its first statement. */
  lemma Persists(db: Db, eventOf: map<MessageId, EventId>, r: Request, newId: MessageId) returns (tx: Tx)
    requires DbOk(db, eventOf)
    ensures tx == Advance(db, Opened(r), Persist(0, newId, None)) && tx.request == r
    ensures Conflicts(db, r) <==> tx.stage == Refused(IdempotencyConflict)
    ensures !Conflicts(db, r) ==> tx.stage == Persisted
    ensures !Conflicts(db, r) && Free(db, r) ==> tx == PersistNew(Opened(r), newId)
    ensures !Conflicts(db, r) && !Free(db, r) ==>
      Matches(db, r, tx.target) && tx == Opened(r).(stage := Persisted, target := tx.target)
  {
    tx := Advance(db, Opened(r), Persist(0, newId, None));
    KeyIsTaken(db, r);
    if RequestKey(r) in db.byKey {
      OneEvent(db, eventOf, db.byKey[RequestKey(r)]);
    }
  }

  /** And after its second. */
  lemma BindsExactly(db: Db, tx: Tx)
    requires MediaOk(db.messages.Keys, db.attachments, db.uploads) && MessagesOk(db) && IndexOk(db.messages, db.byKey)
    requires tx.stage == Persisted && |tx.request.uploads| <= 4 && (HasText(tx.request) || tx.request.uploads != [])
    requires tx.created.Some? ==> Free(db, tx.request) && tx.target !in db.messages
    requires tx.created.None? ==> Matches(db, tx.request, tx.target)
    ensures var after := Advance(db, tx, BindMedia(0, None));
      if Fits(db, tx.request) then
        && after == tx.(stage := MediaBound, attachments := tx.request.uploads, binds := after.binds)
        && (after.binds <==> if tx.created.Some? then tx.request.uploads != [] else BringsMedia(db, tx.request, tx.target))
        && (tx.created.None? && !after.binds ==> Repeats(db, tx.request, tx.target))
      else after == tx.(stage := Refused(MediaNotAvailable))
  {
    KeyIsTaken(db, tx.request);
    if tx.created.Some? {
      BindsNew(db, tx);
    } else {
      BindsExisting(db, tx, tx.target);
    }
  }

  lemma CommitInserts(db: Db, tx: Tx, m: MessageId, e: EventId)
    requires tx.created == PersistNew(tx, m).created && tx.target == m && tx.event == e
    requires tx.attachments == tx.request.uploads && (tx.binds <==> tx.attachments != [])
    ensures Inserts(db, Committed(db, tx), tx.request, m, e)
  {
  }

  lemma CommitAttaches(db: Db, tx: Tx)
    requires tx.created.None? && tx.attachments == tx.request.uploads && tx.binds
    ensures Attaches(db, Committed(db, tx), tx.request, tx.target)
  {
  }

  /** The transaction of an accepted call before its end, told from the case it is in. */
  ghost predicate Arrives(db: Db, r: Request, env: Environment, tx: Tx) {
    if Conflicts(db, r) then tx.stage == Refused(IdempotencyConflict)
    else if !Fits(db, r) then tx.stage == Refused(MediaNotAvailable)
    else
      && tx.stage == Notified && tx.request == r && tx.attachments == r.uploads && tx.event == env.newEvent
      && (if Free(db, r) then IsNew(r, env, tx) else IsKnown(db, r, tx))
  }

  ghost predicate IsNew(r: Request, env: Environment, tx: Tx) {
    && tx.target == env.newMessage && tx.created == PersistNew(tx, env.newMessage).created
    && (tx.binds <==> r.uploads != [])
  }

  ghost predicate IsKnown(db: Db, r: Request, tx: Tx) {
    && tx.created.None? && Matches(db, r, tx.target)
    && (if tx.binds then BringsMedia(db, r, tx.target) else Repeats(db, r, tx.target))
  }

  /** Whatever statement fails first refuses the call, unless the call is refused before it. */
  ghost predicate Interrupted(db: Db, r: Request, env: Environment, error: Error) {
    || env.persist == Some(error)
    || (env.persist.None? && !Conflicts(db, r) && env.bind == Some(error))
    || (env.persist.None? && env.bind.None? && !Conflicts(db, r) && Fits(db, r)
        && (env.record == Some(error) || (env.record.None? && env.notify == Some(error))))
  }

  ghost predicate Uninterrupted(db: Db, r: Request, env: Environment) {
    forall error :: !Interrupted(db, r, env, error)
  }

  /** The error of the first statement that fails, if one does. */
  ghost function FirstFault(db: Db, r: Request, env: Environment): Option<Error> {
    if env.persist.Some? then env.persist
    else if Conflicts(db, r) then None
    else if env.bind.Some? then env.bind
    else if !Fits(db, r) then None
    else if env.record.Some? then env.record
    else env.notify
  }

  lemma FirstFaultInterrupts(db: Db, r: Request, env: Environment)
    ensures forall error :: Interrupted(db, r, env, error) <==> FirstFault(db, r, env) == Some(error)
    ensures Uninterrupted(db, r, env) <==> FirstFault(db, r, env).None?
  {
    if FirstFault(db, r, env).Some? {
      assert Interrupted(db, r, env, FirstFault(db, r, env).value);
    }
  }

  /** The last two statements of a call that fits. */
  lemma LastStatements(db: Db, r: Request, env: Environment, persisted: Tx, bound: Tx)
    requires env.persist.None? && env.bind.None? && bound.stage == MediaBound
    requires persisted == Advance(db, Opened(r), Persist(0, env.newMessage, None)) && persisted.stage == Persisted
    requires bound == Advance(db, persisted, BindMedia(0, None))
    ensures var tx := Complete(db, Opened(r), env, 0);
      if env.record.Some? then tx.stage == Refused(env.record.value)
      else if env.notify.Some? then tx.stage == Refused(env.notify.value)
      else tx == bound.(stage := Notified, event := env.newEvent)
  {
    UnrollCall(db, r, env);
  }

  lemma FirstStatements(db: Db, r: Request, env: Environment, persisted: Tx)
    requires persisted == Advance(db, Opened(r), Persist(0, env.newMessage, None))
    ensures var tx := Complete(db, Opened(r), env, 0);
      && (env.persist.Some? ==> tx.stage == Refused(env.persist.value))
      && (env.persist.None? && persisted.stage.Refused? ==> tx == persisted)
      && (env.persist.None? && !persisted.stage.Refused? && env.bind.Some? ==> tx.stage == Refused(env.bind.value))
      && (env.persist.None? && !persisted.stage.Refused? && env.bind.None?
          && Advance(db, persisted, BindMedia(0, None)).stage.Refused? ==>
            tx == Advance(db, persisted, BindMedia(0, None)))
  {
    UnrollCall(db, r, env);
  }

  lemma CallArrives(db: Db, eventOf: map<MessageId, EventId>, r: Request, env: Environment)
    requires Sound(db, eventOf, env) && Accepted(r, None)
    ensures var tx, fault := Complete(db, Opened(r), env, 0), FirstFault(db, r, env);
      if fault.Some? then tx.stage == Refused(fault.value) else Arrives(db, r, env, tx)
  {
    var persisted := Persists(db, eventOf, r, env.newMessage);
    FirstStatements(db, r, env, persisted);
    if env.persist.None? && !Conflicts(db, r) && env.bind.None? {
      BindsExactly(db, persisted);
      if Fits(db, r) {
        LastStatements(db, r, env, persisted, Advance(db, persisted, BindMedia(0, None)));
      }
    }
  }

  // ---------------------------------------------------------------------------------------
  // Every answer
  // ---------------------------------------------------------------------------------------

  lemma CasesExclude(db: Db, r: Request)
    requires IndexOk(db.messages, db.byKey)
    ensures Conflicts(db, r) ==> !Fits(db, r) && !Free(db, r)
    ensures forall m, n :: Takes(db, r, m) && Takes(db, r, n) ==> m == n
    ensures forall m :: Repeats(db, r, m) ==> !Free(db, r) && !BringsMedia(db, r, m)
  {
    KeyIsTaken(db, r);
  }

  lemma CommitOfNew(db: Db, r: Request, env: Environment, tx: Tx)
    requires IndexOk(db.messages, db.byKey) && Arrives(db, r, env, tx) && !Conflicts(db, r) && Fits(db, r) && Free(db, r)
    ensures Reply(tx) == Created(env.newMessage, r.uploads)
    ensures Inserts(db, Committed(db, tx), r, env.newMessage, env.newEvent)
  {
    CommitInserts(db, tx, env.newMessage, env.newEvent);
  }

  lemma CommitOfKnown(db: Db, r: Request, env: Environment, tx: Tx)
    requires IndexOk(db.messages, db.byKey) && Arrives(db, r, env, tx) && !Conflicts(db, r) && Fits(db, r) && !Free(db, r)
    ensures Reply(tx) == Existing(tx.target, r.uploads) && Matches(db, r, tx.target)
    ensures Repeats(db, r, tx.target) || BringsMedia(db, r, tx.target)
    ensures Repeats(db, r, tx.target) ==> Committed(db, tx) == db
    ensures BringsMedia(db, r, tx.target) ==> Attaches(db, Committed(db, tx), r, tx.target)
  {
    CasesExclude(db, r);
    if tx.binds {
      CommitAttaches(db, tx);
    }
  }

  lemma AcceptedIsPrepared(r: Request, idempotencyKey: Option<ClientId>)
    ensures Accepted(r, idempotencyKey) <==> Prepare(r, idempotencyKey) == Ok(r)
    ensures !KeyFits(r, idempotencyKey) ==> Prepare(r, idempotencyKey) == Err(IdempotencyKeyMismatch)
    ensures KeyFits(r, idempotencyKey) && !HasText(r) && r.uploads == [] ==>
      Prepare(r, idempotencyKey) == Err(MessageContentRequired)
    ensures KeyFits(r, idempotencyKey) && |r.uploads| > 4 ==> Prepare(r, idempotencyKey) == Err(MediaNotAvailable)
  {
  }

  lemma RejectedOutcome(db: Db, r: Request, idempotencyKey: Option<ClientId>, env: Environment)
    requires !Accepted(r, idempotencyKey)
    ensures var (after, answer) := Send(db, r, idempotencyKey, env); CalmOutcome(db, r, idempotencyKey, env, after, answer)
  {
    AcceptedIsPrepared(r, idempotencyKey);
  }

  lemma RefusedOutcome(db: Db, r: Request, idempotencyKey: Option<ClientId>, env: Environment)
    requires IndexOk(db.messages, db.byKey) && Accepted(r, idempotencyKey) && (Conflicts(db, r) || !Fits(db, r))
    ensures CalmOutcome(db, r, idempotencyKey, env, db,
      Failure(if Conflicts(db, r) then IdempotencyConflict else MediaNotAvailable))
  {
    CasesExclude(db, r);
  }

  lemma CreatedOutcome(db: Db, r: Request, idempotencyKey: Option<ClientId>, env: Environment, after: Db)
    requires IndexOk(db.messages, db.byKey) && Accepted(r, idempotencyKey) && Free(db, r) && Usable(db, r)
    requires Inserts(db, after, r, env.newMessage, env.newEvent)
    ensures CalmOutcome(db, r, idempotencyKey, env, after, Created(env.newMessage, r.uploads))
  {
    CasesExclude(db, r);
  }

  lemma ExistingOutcome(db: Db, r: Request, idempotencyKey: Option<ClientId>, env: Environment, after: Db, m: MessageId)
    requires IndexOk(db.messages, db.byKey) && Accepted(r, idempotencyKey)
    requires (Repeats(db, r, m) && after == db) || (BringsMedia(db, r, m) && Attaches(db, after, r, m))
    ensures CalmOutcome(db, r, idempotencyKey, env, after, Existing(m, r.uploads))
  {
    CasesExclude(db, r);
  }

  /** How an accepted, undisturbed call ends. */
  lemma CalmEnd(db: Db, r: Request, idempotencyKey: Option<ClientId>, env: Environment, tx: Tx)
    requires Accepted(r, idempotencyKey) && Undisturbed(env) && tx == Complete(db, Opened(r), env, 0)
    ensures Send(db, r, idempotencyKey, env) == EndOf(db, tx)
  {
    AcceptedIsPrepared(r, idempotencyKey);
  }

  function EndOf(db: Db, tx: Tx): (Db, Answer) {
    if tx.stage.Refused? then (db, Failure(tx.stage.error)) else (Committed(db, tx), Reply(tx))
  }

  lemma ArrivalOutcome(db: Db, r: Request, idempotencyKey: Option<ClientId>, env: Environment, tx: Tx)
    requires IndexOk(db.messages, db.byKey) && Accepted(r, idempotencyKey) && Arrives(db, r, env, tx)
    ensures CalmOutcome(db, r, idempotencyKey, env, EndOf(db, tx).0, EndOf(db, tx).1)
  {
    CasesExclude(db, r);
    if Conflicts(db, r) || !Fits(db, r) {
      RefusedOutcome(db, r, idempotencyKey, env);
    } else if Free(db, r) {
      CommitOfNew(db, r, env, tx);
      CreatedOutcome(db, r, idempotencyKey, env, Committed(db, tx));
    } else {
      CommitOfKnown(db, r, env, tx);
      ExistingOutcome(db, r, idempotencyKey, env, Committed(db, tx), tx.target);
    }
  }

  /** An undisturbed call: every answer if and only if its case. */
  lemma CalmSendIsExact(db: Db, eventOf: map<MessageId, EventId>, r: Request, idempotencyKey: Option<ClientId>, env: Environment)
    requires Sound(db, eventOf, env) && Undisturbed(env)
    ensures var (after, answer) := Send(db, r, idempotencyKey, env); CalmOutcome(db, r, idempotencyKey, env, after, answer)
  {
    if !Accepted(r, idempotencyKey) {
      RejectedOutcome(db, r, idempotencyKey, env);
    } else {
      CallArrives(db, eventOf, r, env);
      CalmEnd(db, r, idempotencyKey, env, Complete(db, Opened(r), env, 0));
      ArrivalOutcome(db, r, idempotencyKey, env, Complete(db, Opened(r), env, 0));
    }
  }

  /**
   A disturbed call: an accepted one that cannot begin changes nothing; a failing statement refuses it and
   changes nothing; and a call that comes to its end has its calm outcome if the commit is acknowledged,
   its calm effect if only the acknowledgement is lost, and none if the commit is not applied.
   */
  lemma DisturbedSendIsExact(db: Db, eventOf: map<MessageId, EventId>, r: Request, idempotencyKey: Option<ClientId>, env: Environment)
    requires Sound(db, eventOf, env) && Accepted(r, idempotencyKey)
    ensures var calm := Calmed(env);
      var (effect, answer) := Send(db, r, idempotencyKey, calm);
      var actual := Send(db, r, idempotencyKey, env);
      && (!env.begin ==> actual == (db, Failure(DatabaseUnavailable)))
      && (forall error :: env.begin && Interrupted(db, r, env, error) ==>
            actual == (db, Failure(if env.rollbackFails then DatabaseUnavailable else error)))
      && (env.begin && Uninterrupted(db, r, env) ==> actual == CalmBut(db, env, effect, answer))
  {
    var a, b := Complete(db, Opened(r), env, 0), Complete(db, Opened(r), Calmed(env), 0);
    AcceptedIsPrepared(r, idempotencyKey);
    FirstFaultInterrupts(db, r, env);
    CallArrives(db, eventOf, r, env);
    CallArrives(db, eventOf, r, Calmed(env));
    CalmEnd(db, r, idempotencyKey, Calmed(env), b);
    if env.begin && Uninterrupted(db, r, env) {
      ArrivalIsUnique(db, r, Calmed(env), a, b);
      UninterruptedEnd(db, env, a, b);
    }
  }

  /** The same identities in an environment without faults. */
  function Calmed(env: Environment): Environment {
    Environment(true, None, env.newMessage, None, None, env.newEvent, None, Acknowledged, false)
  }

  /** What the end of the transaction makes of the calm effect and answer. */
  function CalmBut(db: Db, env: Environment, effect: Db, answer: Answer): (Db, Answer) {
    if answer.Failure? then (db, if env.rollbackFails then Failure(DatabaseUnavailable) else answer)
    else (if env.commit == NotApplied then db else effect,
          if env.commit == Acknowledged then answer else Failure(DatabaseUnavailable))
  }

  lemma UninterruptedEnd(db: Db, env: Environment, a: Tx, b: Tx)
    requires a.stage == b.stage && (!a.stage.Refused? ==> Committed(db, a) == Committed(db, b) && Reply(a) == Reply(b))
    ensures Finish(db, a, env) == CalmBut(db, env, EndOf(db, b).0, EndOf(db, b).1)
  {
  }

  lemma ArrivalIsUnique(db: Db, r: Request, env: Environment, a: Tx, b: Tx)
    requires IndexOk(db.messages, db.byKey) && Arrives(db, r, env, a) && Arrives(db, r, env, b)
    ensures a.stage == b.stage && (!a.stage.Refused? ==> Committed(db, a) == Committed(db, b) && Reply(a) == Reply(b))
  {
    CasesExclude(db, r);
  }

  /** Whatever a run has left behind, the next call finds it sound. */
  lemma RunsAreSound(t: State, env: Environment)
    requires Reachable(t) && env.newMessage !in t.db.messages && env.newEvent !in t.db.events
    ensures Sound(t.db, t.history.eventOf, env)
  {
    ReachableKeepsInv(t);
    var steps :| Runs(EMPTY, steps, t);
    RunKeepsContent(EMPTY, steps, t);
  }

  lemma LostAcknowledgement(db: Db, eventOf: map<MessageId, EventId>, r: Request, env: Environment)
    requires Sound(db, eventOf, env) && Accepted(r, None) && Free(db, r) && Usable(db, r)
    requires env == Calmed(env).(commit := AcknowledgementLost)
    ensures Send(db, r, None, env).1 == Failure(DatabaseUnavailable)
    ensures Inserts(db, Send(db, r, None, env).0, r, env.newMessage, env.newEvent)
  {
    CalmSendIsExact(db, eventOf, r, None, Calmed(env));
    FirstFaultInterrupts(db, r, env);
    DisturbedSendIsExact(db, eventOf, r, None, env);
  }

  lemma RepetitionAnswers(db: Db, eventOf: map<MessageId, EventId>, r: Request, env: Environment, m: MessageId)
    requires Sound(db, eventOf, env) && Undisturbed(env) && Accepted(r, None) && Repeats(db, r, m)
    ensures Send(db, r, None, env) == (db, Existing(m, r.uploads))
  {
    CalmSendIsExact(db, eventOf, r, None, env);
  }

  lemma InsertedRepeats(before: Db, after: Db, r: Request, m: MessageId, e: EventId)
    requires Inserts(before, after, r, m, e)
    ensures Repeats(after, r, m)
    ensures forall n :: n !in before.messages && n != m ==> n !in after.messages
    ensures forall f :: f !in before.events && f != e ==> f !in after.events
  {
  }

  lemma ReachableFurther(s: State, steps: seq<Step>, t: State)
    requires Reachable(s) && Runs(s, steps, t)
    ensures Reachable(t)
  {
    var first :| Runs(EMPTY, first, s);
    Join(EMPTY, first, s, steps, t);
  }

  /** An undisturbed call from a reachable state ends in a reachable state. */
  lemma CallStaysReachable(s: State, c: CallId, r: Request, env: Environment) returns (t: State)
    requires Reachable(s) && s.txs == map[] && c !in s.answers && Accepted(r, None) && env.begin
    requires env.newMessage !in s.db.messages && env.newEvent !in s.db.events
    ensures Reachable(t) && t.db == Send(s.db, r, None, env).0
  {
    AcceptedIsPrepared(r, None);
    var steps;
    steps, t := CallIsARun(s, c, r, env);
    ReachableFurther(s, steps, t);
  }

  /**
   The ordinary retry, from any state a run leaves without open calls: if the first call created its
   message but the commit's acknowledgement was lost, the same request sent again is answered with that
   message and its media, and changes nothing.
   */
  lemma RetryFindsItsMessage(s: State, c: CallId, r: Request, env: Environment, again: Environment)
    requires Reachable(s) && s.txs == map[] && c !in s.answers && Accepted(r, None) && Free(s.db, r) && Usable(s.db, r)
    requires env.newMessage !in s.db.messages && env.newEvent !in s.db.events
    requires env == Calmed(env).(commit := AcknowledgementLost) && Undisturbed(again)
    requires again.newMessage !in s.db.messages && again.newMessage != env.newMessage
    requires again.newEvent !in s.db.events && again.newEvent != env.newEvent
    ensures Send(s.db, r, None, env).1 == Failure(DatabaseUnavailable)
    ensures var after := Send(s.db, r, None, env).0;
      Send(after, r, None, again) == (after, Existing(env.newMessage, r.uploads))
  {
    RunsAreSound(s, env);
    LostAcknowledgement(s.db, s.history.eventOf, r, env);
    var t := CallStaysReachable(s, c, r, env);
    InsertedRepeats(s.db, t.db, r, env.newMessage, env.newEvent);
    RunsAreSound(t, again);
    RepetitionAnswers(t.db, t.history.eventOf, r, again, env.newMessage);
  }
}
