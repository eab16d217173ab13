/**
 What committed messages contain and what the answers of the mounted send say about them, over every run:
 a second invariant on top of the one that counts messages and events.
 */
module SendContent {
  import opened Common
  import opened SendComposition

  /** The message is what the request asked to send. */
  predicate Says(m: Message, r: Request) {
    m.sender == r.sender && m.room == r.room && m.clientId == r.clientId && m.body == r.body
  }

  /**
   A message with these attachments: text or media, at most four uploads, all of the sender's own for
   that room, and audio only alone and without text.
   */
  predicate WellComposed(m: Message, media: seq<UploadId>, uploads: map<UploadId, Upload>) {
    && |media| <= MAX_MEDIA_PER_MESSAGE && (BodyPresent(m.body) || media != [])
    && (forall u :: u in media ==> u in uploads && uploads[u].owner == m.sender && uploads[u].room == m.room)
    && ((forall u :: u in media ==> u in uploads && !uploads[u].audio) || (|media| == 1 && !BodyPresent(m.body)))
  }

  function Requested(r: Request): Message {
    Message(0, r.room, r.sender, r.clientId, r.body)
  }

  ghost predicate MessagesOk(db: Db) {
    forall m :: m in db.messages ==> m in db.attachments && WellComposed(db.messages[m], db.attachments[m], db.uploads)
  }

  ghost predicate TxSays(db: Db, tx: Tx) {
    && (Inserting(tx) ==> Says(tx.created.value, tx.request))
    && (Live(tx) && tx.created.None? ==> tx.target in db.messages && Says(db.messages[tx.target], tx.request))
    && (Binding(tx) ==> tx.attachments == tx.request.uploads)
    && (Binding(tx) && (tx.created.Some? || tx.binds) ==>
          WellComposed(Requested(tx.request), tx.attachments, db.uploads))
  }

  function Named(a: Answer): Option<(MessageId, seq<UploadId>)> {
    match a
    case Created(m, media) => Some((m, media))
    case Existing(m, media) => Some((m, media))
    case Failure(_) => None
  }

  /** An answer names a committed message of the caller's request, with the media the caller asked for. */
  ghost predicate AnswerSays(db: Db, answer: Answer, r: Request) {
    Named(answer).Some? ==>
      var (m, media) := Named(answer).value;
      && m in db.messages && Says(db.messages[m], r) && media == r.uploads
      && m in db.attachments && (db.attachments[m] == media || media == [])
  }

  ghost predicate TxsSay(db: Db, txs: map<CallId, Tx>, asked: map<CallId, Request>) {
    forall c :: c in txs ==> TxSays(db, txs[c]) && c in asked && asked[c] == txs[c].request
  }

  ghost predicate AnswersSay(db: Db, answers: map<CallId, Answer>, asked: map<CallId, Request>) {
    forall c :: c in answers ==> c in asked && AnswerSays(db, answers[c], asked[c])
  }

  ghost predicate ContentInv(s: State) {
    && MessagesOk(s.db)
    && TxsSay(s.db, s.txs, s.history.asked)
    && AnswersSay(s.db, s.answers, s.history.asked)
  }

  // ---------------------------------------------------------------------------------------
  // What never changes
  // ---------------------------------------------------------------------------------------

  /** Messages stay, uploads keep their owner, room and kind, and attachments once there stay. */
  ghost predicate Grows(a: Db, b: Db) {
    && (forall m :: m in a.messages ==> m in b.messages && b.messages[m] == a.messages[m])
    && (forall u :: u in a.uploads ==> u in b.uploads && b.uploads[u] == a.uploads[u].(status := b.uploads[u].status))
    && (forall m :: m in a.attachments ==> m in b.attachments && (b.attachments[m] == a.attachments[m] || a.attachments[m] == []))
  }

  lemma TxSaysSurvives(a: Db, b: Db, tx: Tx)
    requires Grows(a, b) && TxSays(a, tx)
    ensures TxSays(b, tx)
  {
  }

  lemma AnswerSurvives(a: Db, b: Db, answer: Answer, r: Request)
    requires Grows(a, b) && AnswerSays(a, answer, r)
    ensures AnswerSays(b, answer, r)
  {
  }

  lemma CompositionSurvives(a: Db, b: Db, m: Message, media: seq<UploadId>)
    requires Grows(a, b) && WellComposed(m, media, a.uploads)
    ensures WellComposed(m, media, b.uploads)
  {
  }

  lemma CommitGrows(db: Db, tx: Tx)
    requires TxOk(db, tx) && tx.stage == Notified
    requires tx.created.Some? ==> tx.target !in db.messages && tx.target !in db.attachments
    ensures Grows(db, Committed(db, tx))
  {
  }

  // ---------------------------------------------------------------------------------------
  // The steps
  // ---------------------------------------------------------------------------------------

  lemma CommitKeepsMessages(db: Db, tx: Tx)
    requires MessagesOk(db) && TxSays(db, tx) && TxOk(db, tx) && tx.stage == Notified && Grows(db, Committed(db, tx))
    ensures MessagesOk(Committed(db, tx))
  {
    var after := Committed(db, tx);
    forall m | m in after.messages
      ensures m in after.attachments && WellComposed(after.messages[m], after.attachments[m], after.uploads)
    {
      if m == tx.target && (tx.created.Some? || tx.binds) {
        assert WellComposed(after.messages[m], tx.attachments, db.uploads);
        CompositionSurvives(db, after, after.messages[m], tx.attachments);
      } else {
        CompositionSurvives(db, after, db.messages[m], db.attachments[m]);
      }
    }
  }

  lemma ReplySays(db: Db, tx: Tx)
    requires TxSays(db, tx) && TxOk(db, tx) && tx.stage == Notified
    ensures AnswerSays(Committed(db, tx), Reply(tx), tx.request)
  {
  }

  lemma TxsSurvive(a: Db, b: Db, txs: map<CallId, Tx>, asked: map<CallId, Request>)
    requires TxsSay(a, txs, asked) && Grows(a, b)
    ensures TxsSay(b, txs, asked)
  {
    forall c | c in txs ensures TxSays(b, txs[c]) {
      TxSaysSurvives(a, b, txs[c]);
    }
  }

  lemma AnswersSurvive(a: Db, b: Db, answers: map<CallId, Answer>, asked: map<CallId, Request>)
    requires AnswersSay(a, answers, asked) && Grows(a, b)
    ensures AnswersSay(b, answers, asked)
  {
    forall c | c in answers ensures AnswerSays(b, answers[c], asked[c]) {
      AnswerSurvives(a, b, answers[c], asked[c]);
    }
  }

  lemma CommittedSays(db: Db, tx: Tx, txs: map<CallId, Tx>, answers: map<CallId, Answer>, asked: map<CallId, Request>)
    requires MessagesOk(db) && TxsSay(db, txs, asked) && AnswersSay(db, answers, asked)
    requires TxSays(db, tx) && TxOk(db, tx) && tx.stage == Notified && db.attachments.Keys == db.messages.Keys
    ensures MessagesOk(Committed(db, tx)) && AnswerSays(Committed(db, tx), Reply(tx), tx.request)
    ensures TxsSay(Committed(db, tx), txs, asked) && AnswersSay(Committed(db, tx), answers, asked)
  {
    CommitGrows(db, tx);
    CommitKeepsMessages(db, tx);
    ReplySays(db, tx);
    TxsSurvive(db, Committed(db, tx), txs, asked);
    AnswersSurvive(db, Committed(db, tx), answers, asked);
  }

  lemma AnswerAdds(db: Db, answers: map<CallId, Answer>, asked: map<CallId, Request>, c: CallId, answer: Answer)
    requires AnswersSay(db, answers, asked) && c in asked && AnswerSays(db, answer, asked[c])
    ensures AnswersSay(db, answers[c := answer], asked)
  {
  }

  lemma CommitKeepsContent(s: State, c: CallId, fate: CommitFate)
    requires ContentInv(s) && Enabled(s, Commit(c, fate)) && TxOk(s.db, s.txs[c])
    requires s.db.attachments.Keys == s.db.messages.Keys
    ensures ContentInv(Apply(s, Commit(c, fate)))
  {
    var t := Apply(s, Commit(c, fate));
    if !fate.NotApplied? {
      CommittedSays(s.db, s.txs[c], s.txs, s.answers, s.history.asked);
    }
    AnswerAdds(t.db, s.answers, s.history.asked, c, t.answers[c]);
  }

  /** Finding or inserting, binding, recording and notifying keep the call true to its request. */
  lemma AdvanceKeepsTxSays(s: State, step: Step)
    requires Enabled(s, step) && Advances(step) && TxSays(s.db, s.txs[step.call])
    requires IndexOk(s.db.messages, s.db.byKey)
    ensures TxSays(s.db, Advance(s.db, s.txs[step.call], step))
  {
  }

  lemma AdvanceKeepsContent(s: State, step: Step)
    requires IndexOk(s.db.messages, s.db.byKey) && ContentInv(s) && Enabled(s, step) && Advances(step)
    ensures ContentInv(Apply(s, step))
  {
    AdvanceKeepsTxSays(s, step);
    AdvanceKeepsRequest(s.db, s.txs[step.call], step);
    TxAdds(s.db, s.txs, s.history.asked, step.call, Advance(s.db, s.txs[step.call], step));
  }

  lemma AdvanceKeepsRequest(db: Db, tx: Tx, step: Step)
    ensures Advance(db, tx, step).request == tx.request
  {
  }

  lemma TxAdds(db: Db, txs: map<CallId, Tx>, asked: map<CallId, Request>, c: CallId, tx: Tx)
    requires TxsSay(db, txs, asked) && TxSays(db, tx) && c in asked && asked[c] == tx.request
    ensures TxsSay(db, txs[c := tx], asked)
  {
  }

  lemma UploadStepKeepsContent(s: State, step: Step)
    requires ContentInv(s) && Enabled(s, step) && (step.AddUpload? || step.ExpireUpload?)
    ensures ContentInv(Apply(s, step))
  {
    var t := Apply(s, step);
    assert Grows(s.db, t.db);
    TxsSurvive(s.db, t.db, s.txs, s.history.asked);
    AnswersSurvive(s.db, t.db, s.answers, s.history.asked);
    forall m | m in t.db.messages ensures WellComposed(t.db.messages[m], t.db.attachments[m], t.db.uploads) {
      CompositionSurvives(s.db, t.db, s.db.messages[m], s.db.attachments[m]);
    }
  }

  lemma StepKeepsContent(s: State, step: Step)
    requires Inv(s) && ContentInv(s) && Enabled(s, step)
    ensures ContentInv(Apply(s, step))
  {
    if step.Commit? {
      assert TxOk(s.db, s.txs[step.call]);
      CommitKeepsContent(s, step.call, step.fate);
    } else if Advances(step) {
      AdvanceKeepsContent(s, step);
    } else if step.AddUpload? || step.ExpireUpload? {
      UploadStepKeepsContent(s, step);
    } else {
      EndKeepsContent(s, step);
    }
  }

  lemma EndKeepsContent(s: State, step: Step)
    requires ContentInv(s) && Enabled(s, step) && (step.Begin? || step.Rollback? || step.Vanish?)
    ensures ContentInv(Apply(s, step))
  {
  }

  lemma {:induction false} RunKeepsContent(s: State, steps: seq<Step>, t: State)
    requires Inv(s) && ContentInv(s) && Runs(s, steps, t)
    ensures ContentInv(t)
    decreases |steps|
  {
    if steps != [] {
      StepKeepsInv(s, steps[0]);
      StepKeepsContent(s, steps[0]);
      RunKeepsContent(Apply(s, steps[0]), steps[1..], t);
    }
  }

  // ---------------------------------------------------------------------------------------
  // What every run guarantees
  // ---------------------------------------------------------------------------------------

  /** Every committed message is well composed. */
  lemma CommittedMessagesAreWellComposed(t: State, m: MessageId)
    requires Reachable(t) && m in t.db.messages
    ensures m in t.db.attachments && WellComposed(t.db.messages[m], t.db.attachments[m], t.db.uploads)
  {
    var steps :| Runs(EMPTY, steps, t);
    RunKeepsContent(EMPTY, steps, t);
  }

  /**
   A caller told "created" or "existing" has its own message: sender, room, key and body as asked, the
   answered media are the ones asked for, and they are still the message's, unless it had none and a
   later call brought some.
   */
  lemma AnswersNameTheRequest(t: State, c: CallId)
    requires Reachable(t) && c in t.answers
    ensures c in t.history.asked && AnswerSays(t.db, t.answers[c], t.history.asked[c])
  {
    var steps :| Runs(EMPTY, steps, t);
    RunKeepsContent(EMPTY, steps, t);
  }
}
