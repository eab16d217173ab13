/**
 Refresh-token rotation: concurrent `refresh` calls against the session table, under row locks and
 statement snapshots as the database keeps them, with logins, logouts and suspensions in between.
 */
module RefreshRotation {
  import opened Common

  type SessionId = nat
  type UserId = nat
  type Family = nat
  type Digest = nat
  type CallId = nat
  type Time = int

  datatype Session = Session(
    user: UserId, family: Family, parent: Option<SessionId>, token: Digest, expires: Time,
    consumed: bool, revoked: bool, deleted: bool)

  datatype Account = Account(suspended: bool, deleted: bool)

  /** The committed tables; `byToken` is the unique index on the token hash. */
  datatype Store = Store(
    sessions: map<SessionId, Session>, byToken: map<Digest, SessionId>, accounts: map<UserId, Account>)

  datatype Error =
    | RefreshTokenInvalid
    | RefreshTokenReused
    | AccountSuspended
    | TokenIssuanceUnavailable
    | DatabaseUnavailable

  datatype Answer = Pair(session: SessionId) | Failure(error: Error)

  datatype Request = Request(token: Digest, child: SessionId, childToken: Digest, childExpires: Time, now: Time)

  datatype Verdict = Rotated | Invalid | Reused | Suspended

  predicate Live(x: Session) {
    !x.consumed && !x.revoked && !x.deleted
  }

  // ---------------------------------------------------------------------------------------
  // The statements
  // ---------------------------------------------------------------------------------------

  /** The row the locking read finds: not deleted, of an account that is not deleted. */
  function Found(store: Store, token: Digest): Option<SessionId> {
    if token !in store.byToken || store.byToken[token] !in store.sessions then None
    else
      var x := store.sessions[store.byToken[token]];
      if x.deleted || x.user !in store.accounts || store.accounts[x.user].deleted then None
      else Some(store.byToken[token])
  }

  function Judge(store: Store, r: Request): Verdict {
    var found := Found(store, r.token);
    if found.None? || found.value !in store.sessions then Invalid
    else
      var x := store.sessions[found.value];
      if x.user in store.accounts && store.accounts[x.user].suspended then Suspended
      else if x.consumed then Reused
      else if x.revoked || x.expires <= r.now then Invalid
      else Rotated
  }

  /** Token `d` belongs to session `id`, neither it nor its account deleted. */
  ghost predicate Presents(store: Store, d: Digest, id: SessionId) {
    && id in store.sessions && store.sessions[id].token == d && !store.sessions[id].deleted
    && store.sessions[id].user in store.accounts && !store.accounts[store.sessions[id].user].deleted
  }

  /** The verdicts without their order: suspension hides everything else, reuse is told before expiry. */
  lemma VerdictsAreExact(store: Store, r: Request)
    requires IndexOk(store.sessions, store.byToken)
    ensures Judge(store, r) == Suspended <==>
      exists id: SessionId :: Presents(store, r.token, id) && store.accounts[store.sessions[id].user].suspended
    ensures Judge(store, r) == Reused <==>
      exists id: SessionId :: Presents(store, r.token, id) && !store.accounts[store.sessions[id].user].suspended && store.sessions[id].consumed
    ensures Judge(store, r) == Rotated <==>
      exists id: SessionId :: Presents(store, r.token, id) && !store.accounts[store.sessions[id].user].suspended
        && Live(store.sessions[id]) && r.now < store.sessions[id].expires
    ensures forall id: SessionId :: Presents(store, r.token, id) ==> Found(store, r.token) == Some(id)
  {
    if Found(store, r.token).Some? {
      assert Presents(store, r.token, Found(store, r.token).value);
    }
  }

  function ChildOf(x: Session, parent: SessionId, r: Request): Session {
    Session(x.user, x.family, Some(parent), r.childToken, r.childExpires, false, false, false)
  }

  function FamilyIds(sessions: map<SessionId, Session>, f: Family): set<SessionId> {
    set id | id in sessions && sessions[id].family == f
  }

  function Rotate(store: Store, parent: SessionId, child: SessionId, row: Session): Store
    requires parent in store.sessions
  {
    store.(
      sessions := store.sessions[parent := store.sessions[parent].(consumed := true)][child := row],
      byToken := store.byToken[row.token := child])
  }

  function RevokeAll(store: Store, ids: set<SessionId>): Store {
    store.(sessions := map id | id in store.sessions ::
      if id in ids then store.sessions[id].(revoked := true) else store.sessions[id])
  }

  function DeleteAll(store: Store, ids: set<SessionId>): Store {
    store.(sessions := map id | id in store.sessions ::
      if id in ids then store.sessions[id].(revoked := true, deleted := true) else store.sessions[id])
  }

  // ---------------------------------------------------------------------------------------
  // One call at a time
  // ---------------------------------------------------------------------------------------

  datatype CommitFate = Acknowledged | AcknowledgementLost | NotApplied

  /** What the environment does to one call. */
  datatype Environment = Environment(begins: bool, rotateFails: bool, issues: bool, commit: CommitFate, rollbackFails: bool)

  /** The call reached its verdict and, if it has a pair to issue, issued it. */
  predicate Decides(env: Environment, verdict: Verdict) {
    env.begins && !env.rotateFails && (verdict == Rotated ==> env.issues)
  }

  /** `row` is the requested child of session `parent`, whose row is `x`. */
  predicate IsChild(x: Session, parent: SessionId, r: Request, row: Session) {
    && row.user == x.user && row.family == x.family && row.parent == Some(parent)
    && row.token == r.childToken && row.expires == r.childExpires && Live(row)
  }

  /** Session `parent` is consumed and the requested child is stored for its user and in its family. */
  ghost predicate RotatedInto(before: Store, after: Store, parent: SessionId, r: Request) {
    && parent in before.sessions && after.sessions.Keys == before.sessions.Keys + {r.child}
    && IsChild(before.sessions[parent], parent, r, after.sessions[r.child])
    && (forall id :: id in before.sessions && id != r.child && id != parent ==> after.sessions[id] == before.sessions[id])
    && (parent != r.child ==> after.sessions[parent] == before.sessions[parent].(consumed := true))
    && after.byToken == before.byToken[r.childToken := r.child] && after.accounts == before.accounts
  }

  /** Every session of the family is revoked, and nothing else changes. */
  ghost predicate FamilyRevoked(before: Store, after: Store, family: Family) {
    && after.sessions.Keys == before.sessions.Keys
    && (forall id :: id in before.sessions ==>
          after.sessions[id] ==
            if before.sessions[id].family == family then before.sessions[id].(revoked := true) else before.sessions[id])
    && after.byToken == before.byToken && after.accounts == before.accounts
  }

  /** What one undisturbed call answers, and what it leaves behind. */
  ghost predicate Outcome(before: Store, r: Request, env: Environment, after: Store, answer: Answer) {
    var verdict, done := Judge(before, r), env.commit != NotApplied;
    && (answer.Pair? <==> verdict == Rotated && Decides(env, verdict) && env.commit == Acknowledged)
    && (answer.Pair? ==> answer.session == r.child)
    && (answer == Failure(RefreshTokenReused) <==> verdict == Reused && Decides(env, verdict) && env.commit == Acknowledged)
    && (answer == Failure(RefreshTokenInvalid) <==> verdict == Invalid && Decides(env, verdict) && !env.rollbackFails)
    && (answer == Failure(AccountSuspended) <==> verdict == Suspended && Decides(env, verdict) && !env.rollbackFails)
    && (answer == Failure(TokenIssuanceUnavailable) <==>
          verdict == Rotated && env.begins && !env.rotateFails && !env.issues && !env.rollbackFails)
    && (verdict == Rotated && Decides(env, verdict) && done ==>
          exists id: SessionId :: Presents(before, r.token, id) && RotatedInto(before, after, id, r))
    && (verdict == Reused && Decides(env, verdict) && done ==>
          exists id: SessionId :: Presents(before, r.token, id) && FamilyRevoked(before, after, before.sessions[id].family))
    && (!(verdict in {Rotated, Reused} && Decides(env, verdict) && done) ==> after == before)
  }

  class AuthService {
    var store: Store

    constructor (store: Store)
      ensures this.store == store
    {
      this.store := store;
    }

    method RollbackWith(env: Environment, error: Error) returns (answer: Answer)
      ensures answer == Failure(if env.rollbackFails then DatabaseUnavailable else error)
    {
      if env.rollbackFails {
        return Failure(DatabaseUnavailable);
      }
      answer := Failure(error);
    }

    /** `refresh_with_client_ip` past its rate limits, undisturbed by other calls, over tables with their unique index. */
    method Refresh(r: Request, env: Environment) returns (answer: Answer)
      requires IndexOk(store.sessions, store.byToken)
      modifies this
      ensures Outcome(old(store), r, env, store, answer)
    {
      if !env.begins {
        return Failure(DatabaseUnavailable);
      }
      if env.rotateFails {
        answer := RollbackWith(env, DatabaseUnavailable);
        return;
      }
      if Found(store, r.token).Some? {
        assert Presents(store, r.token, Found(store, r.token).value);
      }
      match Judge(store, r) {
        case Invalid =>
          answer := RollbackWith(env, RefreshTokenInvalid);
        case Suspended =>
          answer := RollbackWith(env, AccountSuspended);
        case Reused =>
          var family := store.sessions[Found(store, r.token).value].family;
          if env.commit != NotApplied {
            store := RevokeAll(store, FamilyIds(store.sessions, family));
            assert FamilyRevoked(old(store), store, family);
          }
          answer := Failure(if env.commit == Acknowledged then RefreshTokenReused else DatabaseUnavailable);
        case Rotated =>
          if !env.issues {
            answer := RollbackWith(env, TokenIssuanceUnavailable);
            return;
          }
          var parent := Found(store, r.token).value;
          if env.commit != NotApplied {
            store := Rotate(store, parent, r.child, ChildOf(store.sessions[parent], parent, r));
            assert RotatedInto(old(store), store, parent, r);
          }
          answer := if env.commit == Acknowledged then Pair(r.child) else Failure(DatabaseUnavailable);
      }
    }
  }

  // ---------------------------------------------------------------------------------------
  // Interleaved calls
  // ---------------------------------------------------------------------------------------

  /** What an open transaction will do when it ends. */
  datatype Plan =
    | Rotation(parent: SessionId, child: SessionId, row: Session)
    | Revocation(family: Family, snapshot: Option<set<SessionId>>, applied: bool)
    | Refusal(error: Error)

  /** For the proofs: who asked for which child, each family's newest session, each session's child. */
  datatype History = History(
    ids: map<SessionId, CallId>, tokens: map<Digest, CallId>, head: map<Family, SessionId>,
    next: map<SessionId, SessionId>, asked: map<CallId, Request>, told: map<CallId, set<SessionId>>)

  datatype State = State(
    store: Store, txs: map<CallId, Plan>, locks: map<SessionId, CallId>, answers: map<CallId, Answer>, history: History)

  datatype Step =
    | Login(id: SessionId, row: Session)
    | Ask(call: CallId, request: Request, issues: bool)
    | TakeSnapshot(call: CallId)
    | Revoke(call: CallId)
    | Fault(call: CallId)
    | Commit(call: CallId, fate: CommitFate)
    | Rollback(call: CallId, fails: bool)
    | Withdraw(ids: set<SessionId>, deletes: bool)
    | SetAccount(user: UserId, account: Account)

  /** A lock on `id` does not stop `c`. */
  predicate Free(s: State, id: SessionId, c: CallId) {
    id in s.locks ==> s.locks[id] == c
  }

  /** Every statement has run; a locked parent is still there. */
  predicate Complete(store: Store, plan: Plan) {
    || (plan.Rotation? && plan.parent in store.sessions)
    || (plan.Revocation? && plan.snapshot.Some? && plan.applied)
  }

  predicate Enabled(s: State, step: Step) {
    match step
    case Login(id, row) =>
      && id !in s.store.sessions && id !in s.history.ids && row.family !in s.history.head
      && row.token !in s.store.byToken && row.token !in s.history.tokens && row.parent.None? && Live(row)
    case Ask(c, r, _) =>
      && c !in s.history.asked
      && r.child !in s.store.sessions && r.child !in s.history.ids
      && r.childToken !in s.store.byToken && r.childToken !in s.history.tokens
      && (Found(s.store, r.token).Some? ==> Found(s.store, r.token).value !in s.locks)
    case TakeSnapshot(c) => c in s.txs && s.txs[c].Revocation? && s.txs[c].snapshot.None?
    case Revoke(c) =>
      && c in s.txs && s.txs[c].Revocation? && s.txs[c].snapshot.Some? && !s.txs[c].applied
      && forall id :: id in s.txs[c].snapshot.value ==> Free(s, id, c)
    case Fault(c) => c in s.txs
    case Commit(c, _) => c in s.txs && Complete(s.store, s.txs[c])
    case Rollback(c, _) => c in s.txs && s.txs[c].Refusal?
    case Withdraw(ids, _) => forall id :: id in ids ==> id !in s.locks
    case SetAccount(_, _) => true
  }

  function PlanOf(s: State, r: Request, issues: bool): Plan {
    var found := Found(s.store, r.token);
    match Judge(s.store, r)
    case Invalid => Refusal(RefreshTokenInvalid)
    case Suspended => Refusal(AccountSuspended)
    case Reused => Revocation(s.store.sessions[found.value].family, None, false)
    case Rotated =>
      if issues then Rotation(found.value, r.child, ChildOf(s.store.sessions[found.value], found.value, r))
      else Refusal(TokenIssuanceUnavailable)
  }

  function Unlock(locks: map<SessionId, CallId>, c: CallId): map<SessionId, CallId> {
    map id | id in locks && locks[id] != c :: locks[id]
  }

  function Answered(s: State, c: CallId, answer: Answer): State {
    s.(txs := s.txs - {c}, locks := Unlock(s.locks, c), answers := s.answers[c := answer])
  }

  function Committed(s: State, c: CallId): State
    requires c in s.txs && Complete(s.store, s.txs[c])
  {
    match s.txs[c]
    case Rotation(parent, child, row) =>
      s.(store := Rotate(s.store, parent, child, row),
         history := s.history.(head := s.history.head[row.family := child], next := s.history.next[parent := child]))
    case Revocation(f, snapshot, _) =>
      s.(store := RevokeAll(s.store, snapshot.value),
         history := s.history.(told := s.history.told[c := snapshot.value]))
  }

  function Success(plan: Plan): Answer {
    match plan
    case Rotation(_, child, _) => Pair(child)
    case _ => Failure(RefreshTokenReused)
  }

  function Apply(s: State, step: Step): State
    requires Enabled(s, step)
  {
    match step
    case Login(id, row) =>
      s.(store := s.store.(sessions := s.store.sessions[id := row], byToken := s.store.byToken[row.token := id]),
         history := s.history.(head := s.history.head[row.family := id]))
    case Ask(c, r, issues) =>
      var found := Found(s.store, r.token);
      s.(txs := s.txs[c := PlanOf(s, r, issues)],
         locks := if found.Some? then s.locks[found.value := c] else s.locks,
         history := s.history.(
           ids := s.history.ids[r.child := c], tokens := s.history.tokens[r.childToken := c],
           asked := s.history.asked[c := r]))
    case TakeSnapshot(c) =>
      s.(txs := s.txs[c := s.txs[c].(snapshot := Some(FamilyIds(s.store.sessions, s.txs[c].family)))])
    case Revoke(c) =>
      s.(txs := s.txs[c := s.txs[c].(applied := true)],
         locks := map id | id in s.locks.Keys + s.txs[c].snapshot.value ::
           if id in s.txs[c].snapshot.value then c else s.locks[id])
    case Fault(c) => s.(txs := s.txs[c := Refusal(DatabaseUnavailable)])
    case Commit(c, fate) =>
      Answered(
        if fate.NotApplied? then s else Committed(s, c), c,
        if fate.Acknowledged? then Success(s.txs[c]) else Failure(DatabaseUnavailable))
    case Rollback(c, fails) => Answered(s, c, Failure(if fails then DatabaseUnavailable else s.txs[c].error))
    case Withdraw(ids, deletes) =>
      s.(store := if deletes then DeleteAll(s.store, ids) else RevokeAll(s.store, ids))
    case SetAccount(u, a) => s.(store := s.store.(accounts := s.store.accounts[u := a]))
  }

  ghost predicate Runs(s: State, steps: seq<Step>, t: State)
    decreases |steps|
  {
    if steps == [] then s == t
    else Enabled(s, steps[0]) && Runs(Apply(s, steps[0]), steps[1..], t)
  }

  const EMPTY: State := State(
    Store(map[], map[], map[]), map[], map[], map[], History(map[], map[], map[], map[], map[], map[]))

  ghost predicate Leads(s: State, t: State) {
    exists steps :: Runs(s, steps, t)
  }

  ghost predicate Reachable(t: State) {
    Leads(EMPTY, t)
  }

  // ---------------------------------------------------------------------------------------
  // What every reachable state satisfies
  // ---------------------------------------------------------------------------------------

  ghost predicate IndexOk(sessions: map<SessionId, Session>, byToken: map<Digest, SessionId>) {
    && (forall id :: id in sessions ==> sessions[id].token in byToken && byToken[sessions[id].token] == id)
    && (forall d :: d in byToken ==> byToken[d] in sessions && sessions[byToken[d]].token == d)
  }

  /** A family has one unconsumed session, its head. */
  ghost predicate HeadsOk(sessions: map<SessionId, Session>, head: map<Family, SessionId>) {
    && (forall id :: id in sessions ==>
          sessions[id].family in head && (!sessions[id].consumed <==> head[sessions[id].family] == id))
    && (forall f :: f in head ==> head[f] in sessions && sessions[head[f]].family == f)
  }

  /** A consumed session has one child, and only consumed sessions have any. */
  ghost predicate LinksOk(sessions: map<SessionId, Session>, next: map<SessionId, SessionId>) {
    && (forall id :: id in sessions ==> (sessions[id].consumed <==> id in next))
    && (forall id :: id in next ==>
          && id in sessions && next[id] in sessions && sessions[next[id]].parent == Some(id)
          && sessions[next[id]].family == sessions[id].family && sessions[next[id]].user == sessions[id].user)
    && (forall id :: id in sessions && sessions[id].parent.Some? ==>
          sessions[id].parent.value in next && next[sessions[id].parent.value] == id)
  }

  ghost predicate RotationOk(store: Store, locks: map<SessionId, CallId>, h: History, c: CallId, plan: Plan)
    requires plan.Rotation?
  {
    && plan.parent in store.sessions && plan.parent in locks && locks[plan.parent] == c
    && Live(store.sessions[plan.parent])
    && plan.child !in store.sessions && plan.child in h.ids && h.ids[plan.child] == c
    && plan.row.token !in store.byToken && plan.row.token in h.tokens && h.tokens[plan.row.token] == c
    && c in h.asked && plan.row == ChildOf(store.sessions[plan.parent], plan.parent, h.asked[c])
    && plan.child == h.asked[c].child && store.sessions[plan.parent].token == h.asked[c].token
    && h.asked[c].now < store.sessions[plan.parent].expires
  }

  ghost predicate RevocationOk(store: Store, locks: map<SessionId, CallId>, h: History, c: CallId, plan: Plan)
    requires plan.Revocation?
  {
    && plan.family in h.head
    && c in h.asked && h.asked[c].token in store.byToken && store.byToken[h.asked[c].token] in store.sessions
    && store.sessions[store.byToken[h.asked[c].token]].family == plan.family
    && (plan.snapshot.Some? ==>
          && store.byToken[h.asked[c].token] in plan.snapshot.value
          && forall id :: id in plan.snapshot.value ==> id in store.sessions && store.sessions[id].family == plan.family)
    && (plan.applied ==> plan.snapshot.Some? && forall id :: id in plan.snapshot.value ==> id in locks && locks[id] == c)
  }

  ghost predicate PlanOk(store: Store, locks: map<SessionId, CallId>, h: History, c: CallId, plan: Plan) {
    match plan
    case Rotation(_, _, _) => RotationOk(store, locks, h, c, plan)
    case Revocation(_, _, _) => RevocationOk(store, locks, h, c, plan)
    case Refusal(e) => c in h.asked && e != RefreshTokenReused
  }

  ghost predicate PlansOk(store: Store, locks: map<SessionId, CallId>, h: History, txs: map<CallId, Plan>) {
    forall c :: c in txs ==> PlanOk(store, locks, h, c, txs[c])
  }

  ghost predicate PairOk(sessions: map<SessionId, Session>, h: History, c: CallId, id: SessionId) {
    && id in sessions && id in h.ids && h.ids[id] == c
    && c in h.asked && h.asked[c].child == id && sessions[id].token == h.asked[c].childToken
    && sessions[id].parent.Some? && sessions[id].parent.value in sessions
    && sessions[sessions[id].parent.value].token == h.asked[c].token
    && h.asked[c].now < sessions[sessions[id].parent.value].expires
    && sessions[id].expires == h.asked[c].childExpires
  }

  ghost predicate ToldOk(store: Store, h: History, c: CallId)
    requires c in h.told
  {
    && c in h.asked && h.asked[c].token in store.byToken && store.byToken[h.asked[c].token] in h.told[c]
    && forall id :: id in h.told[c] ==> id in store.sessions && store.sessions[id].revoked
  }

  /** Every child is the work of a call that answered with it, or could not tell. */
  ghost predicate ChildrenOk(sessions: map<SessionId, Session>, answers: map<CallId, Answer>, ids: map<SessionId, CallId>) {
    forall id :: id in sessions && sessions[id].parent.Some? ==>
      && id in ids && ids[id] in answers
      && (answers[ids[id]] == Pair(id) || answers[ids[id]] == Failure(DatabaseUnavailable))
  }

  ghost predicate AnswersOk(store: Store, answers: map<CallId, Answer>, h: History) {
    && (forall c :: c in answers ==> c in h.asked)
    && (forall c :: c in answers && answers[c].Pair? ==> PairOk(store.sessions, h, c, answers[c].session))
    && (forall c :: c in answers && answers[c] == Failure(RefreshTokenReused) ==> c in h.told)
    && (forall c :: c in h.told ==> ToldOk(store, h, c))
    && (forall c :: c in h.told ==>
          c in answers && (answers[c] == Failure(RefreshTokenReused) || answers[c] == Failure(DatabaseUnavailable)))
  }

  ghost predicate Inv(s: State) {
    && IndexOk(s.store.sessions, s.store.byToken)
    && HeadsOk(s.store.sessions, s.history.head)
    && LinksOk(s.store.sessions, s.history.next)
    && PlansOk(s.store, s.locks, s.history, s.txs)
    && AnswersOk(s.store, s.answers, s.history)
    && ChildrenOk(s.store.sessions, s.answers, s.history.ids)
    && s.txs.Keys !! s.answers.Keys
  }

  /** What no step ever takes back. */
  ghost predicate Extends(a: Store, b: Store) {
    && (forall id :: id in a.sessions ==> id in b.sessions && Successor(a.sessions[id], b.sessions[id]))
    && (forall d :: d in a.byToken ==> d in b.byToken && b.byToken[d] == a.byToken[d])
  }

  /** The same session later: consumption, revocation and deletion are never undone. */
  predicate Successor(x: Session, y: Session) {
    && y == x.(consumed := y.consumed, revoked := y.revoked, deleted := y.deleted)
    && (x.consumed ==> y.consumed) && (x.revoked ==> y.revoked) && (x.deleted ==> y.deleted)
  }

  lemma AnswersSurvive(a: Store, b: Store, answers: map<CallId, Answer>, h: History)
    requires AnswersOk(a, answers, h) && Extends(a, b)
    ensures AnswersOk(b, answers, h)
  {
  }

  // ---------------------------------------------------------------------------------------
  // Rotation
  // ---------------------------------------------------------------------------------------

  function RotatedRows(sessions: map<SessionId, Session>, parent: SessionId, child: SessionId, row: Session): map<SessionId, Session>
    requires parent in sessions
  {
    sessions[parent := sessions[parent].(consumed := true)][child := row]
  }

  lemma RotateKeepsIndex(sessions: map<SessionId, Session>, byToken: map<Digest, SessionId>,
                         parent: SessionId, child: SessionId, row: Session)
    requires IndexOk(sessions, byToken) && parent in sessions && child !in sessions && row.token !in byToken
    ensures IndexOk(RotatedRows(sessions, parent, child, row), byToken[row.token := child])
  {
  }

  lemma RotateKeepsHeads(sessions: map<SessionId, Session>, head: map<Family, SessionId>,
                         parent: SessionId, child: SessionId, row: Session)
    requires HeadsOk(sessions, head) && parent in sessions && child !in sessions
    requires !sessions[parent].consumed && !row.consumed && row.family == sessions[parent].family
    ensures HeadsOk(RotatedRows(sessions, parent, child, row), head[row.family := child])
  {
  }

  lemma RotateKeepsLinks(sessions: map<SessionId, Session>, next: map<SessionId, SessionId>,
                         parent: SessionId, child: SessionId, row: Session)
    requires LinksOk(sessions, next) && parent in sessions && child !in sessions
    requires !sessions[parent].consumed && !row.consumed && row.parent == Some(parent)
    requires row.family == sessions[parent].family && row.user == sessions[parent].user
    ensures LinksOk(RotatedRows(sessions, parent, child, row), next[parent := child])
  {
  }

  lemma RotateKeepsPlan(store: Store, locks: map<SessionId, CallId>, h: History, c: CallId, mine: Plan, d: CallId, plan: Plan)
    requires mine.Rotation? && RotationOk(store, locks, h, c, mine) && PlanOk(store, locks, h, d, plan) && c != d
    requires IndexOk(store.sessions, store.byToken)
    ensures PlanOk(Rotate(store, mine.parent, mine.child, mine.row), Unlock(locks, c),
                   h.(head := h.head[mine.row.family := mine.child], next := h.next[mine.parent := mine.child]), d, plan)
  {
  }

  lemma RotateExtends(store: Store, parent: SessionId, child: SessionId, row: Session)
    requires parent in store.sessions && child !in store.sessions && row.token !in store.byToken
    ensures Extends(store, Rotate(store, parent, child, row))
  {
  }

  lemma RotateKeepsPlans(s: State, c: CallId)
    requires PlansOk(s.store, s.locks, s.history, s.txs) && IndexOk(s.store.sessions, s.store.byToken)
    requires c in s.txs && s.txs[c].Rotation?
    ensures PlansOk(Committed(s, c).store, Unlock(s.locks, c), Committed(s, c).history, s.txs - {c})
  {
    forall d | d in s.txs && d != c
      ensures PlanOk(Committed(s, c).store, Unlock(s.locks, c), Committed(s, c).history, d, s.txs[d])
    {
      RotateKeepsPlan(s.store, s.locks, s.history, c, s.txs[c], d, s.txs[d]);
    }
  }

  lemma RotateKeepsAnswers(store: Store, locks: map<SessionId, CallId>, answers: map<CallId, Answer>, h: History,
                           c: CallId, mine: Plan, answer: Answer)
    requires mine.Rotation? && RotationOk(store, locks, h, c, mine) && AnswersOk(store, answers, h) && c !in answers
    requires answer == Pair(mine.child) || answer == Failure(DatabaseUnavailable)
    ensures AnswersOk(Rotate(store, mine.parent, mine.child, mine.row), answers[c := answer],
                      h.(head := h.head[mine.row.family := mine.child], next := h.next[mine.parent := mine.child]))
  {
    var after := Rotate(store, mine.parent, mine.child, mine.row);
    RotateExtends(store, mine.parent, mine.child, mine.row);
    AnswersSurvive(store, after, answers, h);
    assert PairOk(after.sessions, h, c, mine.child);
    PairKeepsAnswers(after, answers, h, c, answer);
    AnswersIgnoreChain(after, answers[c := answer], h, h.head[mine.row.family := mine.child], h.next[mine.parent := mine.child]);
  }

  lemma PairKeepsAnswers(store: Store, answers: map<CallId, Answer>, h: History, c: CallId, answer: Answer)
    requires AnswersOk(store, answers, h) && c !in answers && c in h.asked
    requires answer == Failure(DatabaseUnavailable) || (answer.Pair? && PairOk(store.sessions, h, c, answer.session))
    ensures AnswersOk(store, answers[c := answer], h)
  {
  }

  lemma AnswersIgnoreChain(store: Store, answers: map<CallId, Answer>, h: History,
                           head: map<Family, SessionId>, next: map<SessionId, SessionId>)
    requires AnswersOk(store, answers, h)
    ensures AnswersOk(store, answers, h.(head := head, next := next))
  {
  }

  lemma RotateKeepsChildren(sessions: map<SessionId, Session>, answers: map<CallId, Answer>, ids: map<SessionId, CallId>,
                            parent: SessionId, child: SessionId, row: Session, c: CallId, answer: Answer)
    requires ChildrenOk(sessions, answers, ids) && c !in answers && parent in sessions && child in ids && ids[child] == c
    requires answer == Pair(child) || answer == Failure(DatabaseUnavailable)
    ensures ChildrenOk(RotatedRows(sessions, parent, child, row), answers[c := answer], ids)
  {
  }

  lemma RotationCommits(s: State, c: CallId, answer: Answer)
    requires Inv(s) && c in s.txs && s.txs[c].Rotation?
    requires answer == Pair(s.txs[c].child) || answer == Failure(DatabaseUnavailable)
    ensures Inv(Answered(Committed(s, c), c, answer))
  {
    var plan, sessions := s.txs[c], s.store.sessions;
    assert RotationOk(s.store, s.locks, s.history, c, plan);
    RotateKeepsIndex(sessions, s.store.byToken, plan.parent, plan.child, plan.row);
    RotateKeepsHeads(sessions, s.history.head, plan.parent, plan.child, plan.row);
    RotateKeepsLinks(sessions, s.history.next, plan.parent, plan.child, plan.row);
    RotateKeepsPlans(s, c);
    RotateKeepsAnswers(s.store, s.locks, s.answers, s.history, c, plan, answer);
    RotateKeepsChildren(sessions, s.answers, s.history.ids, plan.parent, plan.child, plan.row, c, answer);
  }

  // ---------------------------------------------------------------------------------------
  // Revocation and deletion of rows
  // ---------------------------------------------------------------------------------------

  /** Rows were marked revoked or deleted, and nothing else happened. */
  ghost predicate Marks(a: Store, b: Store) {
    && b.byToken == a.byToken && b.sessions.Keys == a.sessions.Keys
    && forall id :: id in a.sessions ==>
         Successor(a.sessions[id], b.sessions[id]) && b.sessions[id].consumed == a.sessions[id].consumed
  }

  lemma MarkKeepsIndex(a: Store, b: Store)
    requires Marks(a, b) && IndexOk(a.sessions, a.byToken)
    ensures IndexOk(b.sessions, b.byToken)
  {
  }

  lemma MarkKeepsHeads(a: Store, b: Store, head: map<Family, SessionId>)
    requires Marks(a, b) && HeadsOk(a.sessions, head)
    ensures HeadsOk(b.sessions, head)
  {
  }

  lemma MarkKeepsLinks(a: Store, b: Store, next: map<SessionId, SessionId>)
    requires Marks(a, b) && LinksOk(a.sessions, next)
    ensures LinksOk(b.sessions, next)
  {
  }

  lemma MarkKeepsTables(a: Store, b: Store, h: History)
    requires Marks(a, b)
    requires IndexOk(a.sessions, a.byToken) && HeadsOk(a.sessions, h.head) && LinksOk(a.sessions, h.next)
    ensures IndexOk(b.sessions, b.byToken) && HeadsOk(b.sessions, h.head) && LinksOk(b.sessions, h.next)
  {
    MarkKeepsIndex(a, b);
    MarkKeepsHeads(a, b, h.head);
    MarkKeepsLinks(a, b, h.next);
  }

  /** A plan survives changes to rows it does not hold and to locks that are not its own. */
  lemma MarkKeepsPlan(a: Store, b: Store, locks: map<SessionId, CallId>, after: map<SessionId, CallId>, h: History, d: CallId, plan: Plan)
    requires Marks(a, b) && PlanOk(a, locks, h, d, plan)
    requires forall id :: id in locks && locks[id] == d ==> id in after && after[id] == d
    requires forall id :: id in locks && locks[id] == d && id in a.sessions ==> b.sessions[id] == a.sessions[id]
    ensures PlanOk(b, after, h, d, plan)
  {
  }

  lemma RevokeMarks(store: Store, ids: set<SessionId>)
    ensures Marks(store, RevokeAll(store, ids)) && Extends(store, RevokeAll(store, ids))
    ensures Marks(store, DeleteAll(store, ids)) && Extends(store, DeleteAll(store, ids))
  {
  }

  /** History entries that only the proofs of the tables and plans look at. */
  predicate SamePlans(g: History, h: History) {
    h == g.(told := h.told)
  }

  lemma RevokeKeepsPlans(s: State, c: CallId, h: History)
    requires PlansOk(s.store, s.locks, s.history, s.txs) && SamePlans(s.history, h)
    requires c in s.txs && s.txs[c].Revocation? && s.txs[c].applied
    ensures PlansOk(RevokeAll(s.store, s.txs[c].snapshot.value), Unlock(s.locks, c), h, s.txs - {c})
  {
    var after := RevokeAll(s.store, s.txs[c].snapshot.value);
    RevokeMarks(s.store, s.txs[c].snapshot.value);
    assert RevocationOk(s.store, s.locks, s.history, c, s.txs[c]);
    forall d | d in s.txs && d != c ensures PlanOk(after, Unlock(s.locks, c), h, d, s.txs[d]) {
      assert PlanOk(s.store, s.locks, s.history, d, s.txs[d]);
      MarkKeepsPlan(s.store, after, s.locks, Unlock(s.locks, c), s.history, d, s.txs[d]);
    }
  }

  lemma RevokeKeepsAnswers(store: Store, locks: map<SessionId, CallId>, answers: map<CallId, Answer>, h: History,
                           c: CallId, mine: Plan, answer: Answer)
    requires mine.Revocation? && mine.applied && RevocationOk(store, locks, h, c, mine) && AnswersOk(store, answers, h)
    requires answer == Failure(RefreshTokenReused) || answer == Failure(DatabaseUnavailable)
    ensures AnswersOk(RevokeAll(store, mine.snapshot.value), answers[c := answer],
                      h.(told := h.told[c := mine.snapshot.value]))
  {
    RevokeMarks(store, mine.snapshot.value);
    AnswersSurvive(store, RevokeAll(store, mine.snapshot.value), answers, h);
    TellReused(RevokeAll(store, mine.snapshot.value), answers, h, c, mine.snapshot.value, answer);
  }

  lemma TellReused(store: Store, answers: map<CallId, Answer>, h: History, c: CallId, ids: set<SessionId>, answer: Answer)
    requires AnswersOk(store, answers, h)
    requires answer == Failure(RefreshTokenReused) || answer == Failure(DatabaseUnavailable)
    requires c in h.asked && h.asked[c].token in store.byToken && store.byToken[h.asked[c].token] in ids
    requires forall id :: id in ids ==> id in store.sessions && store.sessions[id].revoked
    ensures AnswersOk(store, answers[c := answer], h.(told := h.told[c := ids]))
  {
  }

  lemma RefuseKeepsAnswers(store: Store, answers: map<CallId, Answer>, h: History, c: CallId, error: Error)
    requires AnswersOk(store, answers, h) && c !in answers && c in h.asked && error != RefreshTokenReused
    ensures AnswersOk(store, answers[c := Failure(error)], h)
  {
  }

  lemma MarkKeepsChildren(a: Store, b: Store, answers: map<CallId, Answer>, ids: map<SessionId, CallId>, c: CallId, answer: Answer)
    requires Marks(a, b) && ChildrenOk(a.sessions, answers, ids) && c !in answers
    ensures ChildrenOk(b.sessions, answers[c := answer], ids)
  {
  }

  lemma RevocationCommits(s: State, c: CallId, answer: Answer)
    requires Inv(s) && c in s.txs && s.txs[c].Revocation? && Complete(s.store, s.txs[c])
    requires answer == Failure(RefreshTokenReused) || answer == Failure(DatabaseUnavailable)
    ensures Inv(Answered(Committed(s, c), c, answer))
  {
    var after := RevokeAll(s.store, s.txs[c].snapshot.value);
    RevokeMarks(s.store, s.txs[c].snapshot.value);
    assert RevocationOk(s.store, s.locks, s.history, c, s.txs[c]);
    MarkKeepsTables(s.store, after, s.history);
    RevokeKeepsPlans(s, c, Committed(s, c).history);
    RevokeKeepsAnswers(s.store, s.locks, s.answers, s.history, c, s.txs[c], answer);
    MarkKeepsChildren(s.store, after, s.answers, s.history.ids, c, answer);
  }

  lemma WithdrawKeepsInv(s: State, ids: set<SessionId>, deletes: bool)
    requires Inv(s) && Enabled(s, Withdraw(ids, deletes))
    ensures Inv(Apply(s, Withdraw(ids, deletes)))
  {
    var after := Apply(s, Withdraw(ids, deletes)).store;
    RevokeMarks(s.store, ids);
    MarkKeepsTables(s.store, after, s.history);
    forall d | d in s.txs ensures PlanOk(after, s.locks, s.history, d, s.txs[d]) {
      assert PlanOk(s.store, s.locks, s.history, d, s.txs[d]);
      MarkKeepsPlan(s.store, after, s.locks, s.locks, s.history, d, s.txs[d]);
    }
    AnswersSurvive(s.store, after, s.answers, s.history);
  }

  // ---------------------------------------------------------------------------------------
  // The other steps
  // ---------------------------------------------------------------------------------------

  lemma LeaveKeepsPlans(s: State, c: CallId)
    requires PlansOk(s.store, s.locks, s.history, s.txs)
    ensures PlansOk(s.store, Unlock(s.locks, c), s.history, s.txs - {c})
  {
    forall d | d in s.txs && d != c ensures PlanOk(s.store, Unlock(s.locks, c), s.history, d, s.txs[d]) {
      assert PlanOk(s.store, s.locks, s.history, d, s.txs[d]);
      MarkKeepsPlan(s.store, s.store, s.locks, Unlock(s.locks, c), s.history, d, s.txs[d]);
    }
  }

  /** A transaction that leaves without a trace keeps everything. */
  lemma LeaveKeepsInv(s: State, c: CallId, error: Error)
    requires Inv(s) && c in s.txs && error != RefreshTokenReused
    ensures Inv(Answered(s, c, Failure(error)))
  {
    assert PlanOk(s.store, s.locks, s.history, c, s.txs[c]);
    LeaveKeepsPlans(s, c);
    RefuseKeepsAnswers(s.store, s.answers, s.history, c, error);
    MarkKeepsChildren(s.store, s.store, s.answers, s.history.ids, c, Failure(error));
  }

  lemma NewPlanOk(s: State, c: CallId, r: Request, issues: bool)
    requires IndexOk(s.store.sessions, s.store.byToken) && HeadsOk(s.store.sessions, s.history.head)
    requires Enabled(s, Ask(c, r, issues))
    ensures var t := Apply(s, Ask(c, r, issues)); PlanOk(t.store, t.locks, t.history, c, t.txs[c])
  {
  }

  lemma AskKeepsPlan(s: State, c: CallId, r: Request, issues: bool, d: CallId)
    requires PlansOk(s.store, s.locks, s.history, s.txs) && Enabled(s, Ask(c, r, issues)) && d in s.txs && d != c
    ensures var t := Apply(s, Ask(c, r, issues)); PlanOk(s.store, t.locks, t.history, d, s.txs[d])
  {
    assert PlanOk(s.store, s.locks, s.history, d, s.txs[d]);
  }

  lemma AskKeepsPlans(s: State, c: CallId, r: Request, issues: bool)
    requires PlansOk(s.store, s.locks, s.history, s.txs) && Enabled(s, Ask(c, r, issues))
    requires IndexOk(s.store.sessions, s.store.byToken) && HeadsOk(s.store.sessions, s.history.head)
    ensures var t := Apply(s, Ask(c, r, issues)); PlansOk(t.store, t.locks, t.history, t.txs)
  {
    NewPlanOk(s, c, r, issues);
    forall d | d in s.txs && d != c
      ensures var t := Apply(s, Ask(c, r, issues)); PlanOk(s.store, t.locks, t.history, d, s.txs[d])
    {
      AskKeepsPlan(s, c, r, issues, d);
    }
  }

  lemma AskKeepsAnswers(store: Store, answers: map<CallId, Answer>, h: History, c: CallId, r: Request)
    requires AnswersOk(store, answers, h) && c !in h.asked && r.child !in h.ids
    ensures AnswersOk(store, answers, h.(
      ids := h.ids[r.child := c], tokens := h.tokens[r.childToken := c], asked := h.asked[c := r]))
  {
  }

  lemma AskKeepsChildren(sessions: map<SessionId, Session>, answers: map<CallId, Answer>, ids: map<SessionId, CallId>, c: CallId, child: SessionId)
    requires ChildrenOk(sessions, answers, ids) && child !in sessions
    ensures ChildrenOk(sessions, answers, ids[child := c])
  {
  }

  lemma AskKeepsInv(s: State, c: CallId, r: Request, issues: bool)
    requires Inv(s) && Enabled(s, Ask(c, r, issues))
    ensures Inv(Apply(s, Ask(c, r, issues)))
  {
    AskKeepsPlans(s, c, r, issues);
    AskKeepsAnswers(s.store, s.answers, s.history, c, r);
    AskKeepsChildren(s.store.sessions, s.answers, s.history.ids, c, r.child);
  }

  lemma SnapshotKeepsInv(s: State, c: CallId)
    requires Inv(s) && Enabled(s, TakeSnapshot(c))
    ensures Inv(Apply(s, TakeSnapshot(c)))
  {
    var t := Apply(s, TakeSnapshot(c));
    assert PlanOk(s.store, s.locks, s.history, c, s.txs[c]);
    forall d | d in t.txs ensures PlanOk(t.store, t.locks, t.history, d, t.txs[d]) {
    }
  }

  lemma RevokeKeepsInv(s: State, c: CallId)
    requires Inv(s) && Enabled(s, Revoke(c))
    ensures Inv(Apply(s, Revoke(c)))
  {
    RevokeLocksKeepPlans(s, c);
  }

  lemma RevokeLocksKeepPlans(s: State, c: CallId)
    requires PlansOk(s.store, s.locks, s.history, s.txs) && Enabled(s, Revoke(c))
    ensures var t := Apply(s, Revoke(c)); PlansOk(t.store, t.locks, t.history, t.txs)
  {
    var t := Apply(s, Revoke(c));
    forall d | d in t.txs ensures PlanOk(t.store, t.locks, t.history, d, t.txs[d]) {
      assert PlanOk(s.store, s.locks, s.history, d, s.txs[d]);
      if d != c {
        MarkKeepsPlan(s.store, s.store, s.locks, t.locks, s.history, d, s.txs[d]);
      }
    }
  }

  lemma LoginKeepsIndex(sessions: map<SessionId, Session>, byToken: map<Digest, SessionId>, id: SessionId, row: Session)
    requires IndexOk(sessions, byToken) && id !in sessions && row.token !in byToken
    ensures IndexOk(sessions[id := row], byToken[row.token := id])
  {
  }

  lemma LoginKeepsHeads(sessions: map<SessionId, Session>, head: map<Family, SessionId>, id: SessionId, row: Session)
    requires HeadsOk(sessions, head) && id !in sessions && row.family !in head && !row.consumed
    ensures HeadsOk(sessions[id := row], head[row.family := id])
  {
  }

  lemma LoginKeepsLinks(sessions: map<SessionId, Session>, next: map<SessionId, SessionId>, id: SessionId, row: Session)
    requires LinksOk(sessions, next) && id !in sessions && row.parent.None? && !row.consumed
    ensures LinksOk(sessions[id := row], next)
  {
  }

  lemma LoginKeepsPlans(s: State, id: SessionId, row: Session)
    requires PlansOk(s.store, s.locks, s.history, s.txs) && Enabled(s, Login(id, row))
    ensures var t := Apply(s, Login(id, row)); PlansOk(t.store, t.locks, t.history, t.txs)
  {
    var t := Apply(s, Login(id, row));
    forall d | d in t.txs ensures PlanOk(t.store, t.locks, t.history, d, t.txs[d]) {
      assert PlanOk(s.store, s.locks, s.history, d, s.txs[d]);
    }
  }

  lemma LoginKeepsAnswers(s: State, id: SessionId, row: Session)
    requires AnswersOk(s.store, s.answers, s.history) && Enabled(s, Login(id, row))
    ensures var t := Apply(s, Login(id, row)); AnswersOk(t.store, t.answers, t.history)
  {
    var t := Apply(s, Login(id, row));
    assert Extends(s.store, t.store);
    AnswersSurvive(s.store, t.store, s.answers, s.history);
  }

  lemma LoginKeepsInv(s: State, id: SessionId, row: Session)
    requires Inv(s) && Enabled(s, Login(id, row))
    ensures Inv(Apply(s, Login(id, row)))
  {
    LoginKeepsIndex(s.store.sessions, s.store.byToken, id, row);
    LoginKeepsHeads(s.store.sessions, s.history.head, id, row);
    LoginKeepsLinks(s.store.sessions, s.history.next, id, row);
    LoginKeepsPlans(s, id, row);
    LoginKeepsAnswers(s, id, row);
    LoginKeepsChildren(s.store.sessions, s.answers, s.history.ids, id, row);
  }

  lemma LoginKeepsChildren(sessions: map<SessionId, Session>, answers: map<CallId, Answer>, ids: map<SessionId, CallId>, id: SessionId, row: Session)
    requires ChildrenOk(sessions, answers, ids) && row.parent.None?
    ensures ChildrenOk(sessions[id := row], answers, ids)
  {
  }

  lemma StepKeepsInv(s: State, step: Step)
    requires Inv(s) && Enabled(s, step)
    ensures Inv(Apply(s, step))
  {
    match step {
      case Login(id, row) => LoginKeepsInv(s, id, row);
      case Ask(c, r, issues) => AskKeepsInv(s, c, r, issues);
      case TakeSnapshot(c) => SnapshotKeepsInv(s, c);
      case Revoke(c) => RevokeKeepsInv(s, c);
      case Fault(c) => FaultKeepsInv(s, c);
      case Commit(c, fate) => CommitKeepsInv(s, c, fate);
      case Rollback(c, fails) => RollbackKeepsInv(s, c, fails);
      case Withdraw(ids, deletes) => WithdrawKeepsInv(s, ids, deletes);
      case SetAccount(u, a) => SetAccountKeepsInv(s, u, a);
    }
  }

  lemma FaultKeepsInv(s: State, c: CallId)
    requires Inv(s) && c in s.txs
    ensures Inv(Apply(s, Fault(c)))
  {
    assert PlanOk(s.store, s.locks, s.history, c, s.txs[c]);
  }

  lemma CommitKeepsInv(s: State, c: CallId, fate: CommitFate)
    requires Inv(s) && Enabled(s, Commit(c, fate))
    ensures Inv(Apply(s, Commit(c, fate)))
  {
    var answer := if fate.Acknowledged? then Success(s.txs[c]) else Failure(DatabaseUnavailable);
    if fate.NotApplied? {
      LeaveKeepsInv(s, c, DatabaseUnavailable);
    } else if s.txs[c].Rotation? {
      RotationCommits(s, c, answer);
    } else {
      RevocationCommits(s, c, answer);
    }
  }

  lemma RollbackKeepsInv(s: State, c: CallId, fails: bool)
    requires Inv(s) && Enabled(s, Rollback(c, fails))
    ensures Inv(Apply(s, Rollback(c, fails)))
  {
    assert PlanOk(s.store, s.locks, s.history, c, s.txs[c]);
    LeaveKeepsInv(s, c, if fails then DatabaseUnavailable else s.txs[c].error);
  }

  lemma SetAccountKeepsInv(s: State, u: UserId, a: Account)
    requires Inv(s)
    ensures Inv(Apply(s, SetAccount(u, a)))
  {
    var t := Apply(s, SetAccount(u, a));
    forall d | d in t.txs ensures PlanOk(t.store, t.locks, t.history, d, t.txs[d]) {
      assert PlanOk(s.store, s.locks, s.history, d, s.txs[d]);
    }
    assert Extends(s.store, t.store);
    AnswersSurvive(s.store, t.store, s.answers, s.history);
  }

  lemma {:induction false} RunKeepsInv(s: State, steps: seq<Step>, t: State)
    requires Inv(s) && Runs(s, steps, t)
    ensures Inv(t)
    decreases |steps|
  {
    if steps != [] {
      StepKeepsInv(s, steps[0]);
      RunKeepsInv(Apply(s, steps[0]), steps[1..], t);
    }
  }

  lemma ReachableKeepsInv(t: State)
    requires Reachable(t)
    ensures Inv(t)
  {
    var steps :| Runs(EMPTY, steps, t);
    RunKeepsInv(EMPTY, steps, t);
  }

  // ---------------------------------------------------------------------------------------
  // What every run guarantees
  // ---------------------------------------------------------------------------------------

  /** No family ever has two live sessions, and its sessions form one chain of consumptions. */
  lemma OneLiveSessionPerFamily(t: State, x: SessionId, y: SessionId)
    requires Reachable(t) && x in t.store.sessions && y in t.store.sessions
    ensures Live(t.store.sessions[x]) && Live(t.store.sessions[y]) ==>
      t.store.sessions[x].family == t.store.sessions[y].family ==> x == y
    ensures t.store.sessions[x].parent.Some? && t.store.sessions[x].parent == t.store.sessions[y].parent ==> x == y
    ensures t.store.sessions[x].consumed <==>
      exists z :: z in t.store.sessions && t.store.sessions[z].parent == Some(x)
  {
    ReachableKeepsInv(t);
    if t.store.sessions[x].consumed {
      assert t.store.sessions[t.history.next[x]].parent == Some(x);
    }
  }

  /**
   What a caller may conclude from its answer. A token pair names a committed session, the only child
   of the consumed session whose token was presented before it expired. "Reused" comes after a committed
   revocation: the presented session and every other one the revoking statement saw are revoked. Any other refusal, except for an unavailable database, left nothing.
   */
  lemma AnswersAreTruthful(t: State, c: CallId)
    requires Reachable(t) && c in t.answers
    ensures c in t.history.asked
    ensures t.answers[c].Pair? ==> var id, r := t.answers[c].session, t.history.asked[c];
      && id == r.child && id in t.store.sessions && t.store.sessions[id].token == r.childToken
      && t.store.sessions[id].expires == r.childExpires
      && r.token in t.store.byToken && t.store.sessions[id].parent == Some(t.store.byToken[r.token])
      && t.store.byToken[r.token] in t.store.sessions && r.now < t.store.sessions[t.store.byToken[r.token]].expires
    ensures t.answers[c] == Failure(RefreshTokenReused) ==> var r := t.history.asked[c];
      && c in t.history.told && r.token in t.store.byToken && t.store.byToken[r.token] in t.history.told[c]
      && forall id :: id in t.history.told[c] ==> id in t.store.sessions && t.store.sessions[id].revoked
    ensures t.answers[c].Failure? && t.answers[c].error != DatabaseUnavailable && t.answers[c].error != RefreshTokenReused ==>
      && c !in t.history.told
      && forall id :: id in t.store.sessions && t.store.sessions[id].parent.Some? ==>
           id in t.history.ids && t.history.ids[id] != c
  {
    ReachableKeepsInv(t);
    if t.answers[c].Pair? {
      assert PairOk(t.store.sessions, t.history, c, t.answers[c].session);
    }
    if t.answers[c] == Failure(RefreshTokenReused) {
      assert ToldOk(t.store, t.history, c);
    }
  }

  lemma CommitExtends(s: State, c: CallId, fate: CommitFate)
    requires PlansOk(s.store, s.locks, s.history, s.txs) && Enabled(s, Commit(c, fate))
    ensures Extends(s.store, Apply(s, Commit(c, fate)).store)
  {
    var plan := s.txs[c];
    assert PlanOk(s.store, s.locks, s.history, c, plan);
    if plan.Rotation? {
      RotateExtends(s.store, plan.parent, plan.child, plan.row);
    } else {
      RevokeMarks(s.store, plan.snapshot.value);
    }
  }

  lemma LoginExtends(s: State, id: SessionId, row: Session)
    requires Enabled(s, Login(id, row))
    ensures Extends(s.store, Apply(s, Login(id, row)).store)
  {
  }

  /** No step takes back a consumption, a revocation, a deletion or a session. */
  lemma StepExtends(s: State, step: Step)
    requires PlansOk(s.store, s.locks, s.history, s.txs) && Enabled(s, step)
    ensures Extends(s.store, Apply(s, step).store)
  {
    match step {
      case Withdraw(ids, _) => RevokeMarks(s.store, ids);
      case Commit(c, fate) => CommitExtends(s, c, fate);
      case Login(id, row) => LoginExtends(s, id, row);
      case SetAccount(_, _) =>
      case _ => RefusalsWriteNothing(s, step);
    }
  }

  /** Only commits of rotations and revocations, logins, withdrawals and account changes write. */
  lemma RefusalsWriteNothing(s: State, step: Step)
    requires Enabled(s, step) && !step.Login? && !step.Withdraw? && !step.SetAccount? && !step.Commit?
    ensures Apply(s, step).store == s.store
  {
  }

  // ---------------------------------------------------------------------------------------
  // When a reported reuse has ended the family
  // ---------------------------------------------------------------------------------------

  ghost predicate NoneLive(sessions: map<SessionId, Session>, f: Family) {
    forall id :: id in sessions && sessions[id].family == f ==> !Live(sessions[id])
  }

  /** The family has no live session. */
  ghost predicate Dead(s: State, f: Family) {
    f in s.history.head && NoneLive(s.store.sessions, f)
  }

  lemma NoneLiveExtends(a: Store, b: Store, f: Family)
    requires Extends(a, b) && NoneLive(a.sessions, f)
    requires forall id :: id in b.sessions && id !in a.sessions ==> b.sessions[id].family != f
    ensures NoneLive(b.sessions, f)
  {
  }

  lemma NewRowsElsewhereAtCommit(s: State, c: CallId, fate: CommitFate, f: Family)
    requires PlansOk(s.store, s.locks, s.history, s.txs) && Dead(s, f) && Enabled(s, Commit(c, fate))
    ensures var t := Apply(s, Commit(c, fate));
      && f in t.history.head
      && forall id :: id in t.store.sessions && id !in s.store.sessions ==> t.store.sessions[id].family != f
  {
    assert PlanOk(s.store, s.locks, s.history, c, s.txs[c]);
  }

  /** A step adds a session to a family only next to a live one, or starts a family. */
  lemma NewRowsElsewhere(s: State, step: Step, f: Family)
    requires PlansOk(s.store, s.locks, s.history, s.txs) && Dead(s, f) && Enabled(s, step)
    ensures f in Apply(s, step).history.head
    ensures forall id :: id in Apply(s, step).store.sessions && id !in s.store.sessions ==>
      Apply(s, step).store.sessions[id].family != f
  {
    match step {
      case Commit(c, fate) => NewRowsElsewhereAtCommit(s, c, fate, f);
      case Login(_, _) =>
      case Withdraw(_, _) =>
      case SetAccount(_, _) =>
      case _ => RefusalsWriteNothing(s, step);
    }
  }

  lemma DeadStaysDead(s: State, step: Step, f: Family)
    requires Inv(s) && Enabled(s, step) && Dead(s, f)
    ensures Dead(Apply(s, step), f)
  {
    StepExtends(s, step);
    NewRowsElsewhere(s, step, f);
    NoneLiveExtends(s.store, Apply(s, step).store, f);
  }

  lemma {:induction false} DeadThroughRun(s: State, steps: seq<Step>, t: State, f: Family)
    requires Inv(s) && Runs(s, steps, t) && Dead(s, f)
    ensures Dead(t, f)
    decreases |steps|
  {
    if steps != [] {
      StepKeepsInv(s, steps[0]);
      DeadStaysDead(s, steps[0], f);
      DeadThroughRun(Apply(s, steps[0]), steps[1..], t, f);
    }
  }

  /** The revoking statement saw the family's newest session, or that one is no longer live. */
  predicate SawTheNewest(s: State, c: CallId)
    requires c in s.txs && s.txs[c].Revocation? && s.txs[c].snapshot.Some?
    requires s.txs[c].family in s.history.head && s.history.head[s.txs[c].family] in s.store.sessions
  {
    var newest := s.history.head[s.txs[c].family];
    newest in s.txs[c].snapshot.value || !Live(s.store.sessions[newest])
  }

  lemma RevocationHasFamily(s: State, c: CallId)
    requires Inv(s) && c in s.txs && s.txs[c].Revocation?
    ensures s.txs[c].family in s.history.head && s.history.head[s.txs[c].family] in s.store.sessions
  {
    assert PlanOk(s.store, s.locks, s.history, c, s.txs[c]);
  }

  lemma RevocationEndsFamily(s: State, c: CallId, fate: CommitFate)
    requires Inv(s) && Enabled(s, Commit(c, fate)) && s.txs[c].Revocation? && !fate.NotApplied?
    requires s.txs[c].family in s.history.head && s.history.head[s.txs[c].family] in s.store.sessions
    ensures Dead(Apply(s, Commit(c, fate)), s.txs[c].family) <==> SawTheNewest(s, c)
  {
    RevokedRowsLive(s.store, s.history.head, s.txs[c].family, s.txs[c].snapshot.value);
  }

  lemma RevokedRowsLive(store: Store, head: map<Family, SessionId>, f: Family, ids: set<SessionId>)
    requires HeadsOk(store.sessions, head) && f in head
    ensures NoneLive(RevokeAll(store, ids).sessions, f) <==> head[f] in ids || !Live(store.sessions[head[f]])
  {
    assert RevokeAll(store, ids).sessions[head[f]].family == f;
    assert forall id :: id in store.sessions && store.sessions[id].family == f && id != head[f] ==> store.sessions[id].consumed;
  }

  /**
   After a reuse is committed the family stays without a live session, whatever happens next, if and
   only if the revoking statement saw the family's newest session. A rotation that commits between the
   statement's snapshot and its end is the one way it does not.
   */
  lemma ReuseEndsFamilyExactly(s: State, c: CallId, fate: CommitFate)
    requires Inv(s) && Enabled(s, Commit(c, fate)) && s.txs[c].Revocation? && !fate.NotApplied?
    requires s.txs[c].family in s.history.head && s.history.head[s.txs[c].family] in s.store.sessions
    ensures (forall u :: Leads(Apply(s, Commit(c, fate)), u) ==> Dead(u, s.txs[c].family)) <==> SawTheNewest(s, c)
  {
    var f, t := s.txs[c].family, Apply(s, Commit(c, fate));
    RevocationEndsFamily(s, c, fate);
    if Dead(t, f) {
      CommitKeepsInv(s, c, fate);
      forall u | Leads(t, u) ensures Dead(u, f) {
        var steps :| Runs(t, steps, u);
        DeadThroughRun(t, steps, u, f);
      }
    } else {
      assert Runs(t, [], t);
    }
  }

  /** `step` commits a rotation of family `f`. */
  predicate RotatesFamily(s: State, step: Step, f: Family) {
    && step.Commit? && !step.fate.NotApplied?
    && step.call in s.txs && s.txs[step.call].Rotation? && s.txs[step.call].row.family == f
  }

  /** Some step of the run commits a rotation of family `f`. */
  ghost predicate Overtakes(s: State, steps: seq<Step>, f: Family)
    decreases |steps|
  {
    && steps != [] && Enabled(s, steps[0])
    && (RotatesFamily(s, steps[0], f) || Overtakes(Apply(s, steps[0]), steps[1..], f))
  }

  /** The step leaves the transaction of call `c` open. */
  predicate LeavesOpen(step: Step, c: CallId) {
    step.Fault? || step.Commit? || step.Rollback? ==> step.call != c
  }

  /** Call `c` is revoking family `f`, and its statement saw the sessions `ids`. */
  ghost predicate Saw(s: State, c: CallId, f: Family, ids: set<SessionId>) {
    && c in s.txs && s.txs[c].Revocation? && s.txs[c].family == f && s.txs[c].snapshot == Some(ids)
    && c in s.history.asked && f in s.history.head
  }

  lemma OpenStepKeepsSnapshot(s: State, step: Step, c: CallId, f: Family, ids: set<SessionId>)
    requires Saw(s, c, f, ids) && Enabled(s, step) && LeavesOpen(step, c)
    ensures Saw(Apply(s, step), c, f, ids)
    ensures !RotatesFamily(s, step, f) ==> Apply(s, step).history.head[f] == s.history.head[f]
    ensures RotatesFamily(s, step, f) ==> Apply(s, step).history.head[f] == s.txs[step.call].child
  {
  }

  /** A session that is being created is in no snapshot. */
  lemma ChildIsUnseen(s: State, d: CallId, c: CallId, f: Family, ids: set<SessionId>)
    requires PlansOk(s.store, s.locks, s.history, s.txs) && Saw(s, c, f, ids) && d in s.txs && s.txs[d].Rotation?
    ensures s.txs[d].child !in ids
  {
    assert PlanOk(s.store, s.locks, s.history, c, s.txs[c]) && PlanOk(s.store, s.locks, s.history, d, s.txs[d]);
  }

  lemma NewestSeenAfterStep(s: State, step: Step, c: CallId, f: Family, ids: set<SessionId>)
    requires Inv(s) && Saw(s, c, f, ids) && Enabled(s, step) && LeavesOpen(step, c)
    ensures Inv(Apply(s, step)) && Saw(Apply(s, step), c, f, ids)
    ensures Apply(s, step).history.head[f] in ids <==> s.history.head[f] in ids && !RotatesFamily(s, step, f)
  {
    StepKeepsInv(s, step);
    OpenStepKeepsSnapshot(s, step, c, f, ids);
    if RotatesFamily(s, step, f) {
      ChildIsUnseen(s, step.call, c, f, ids);
    }
  }

  /** The snapshot still holds the newest session if and only if no rotation of the family committed. */
  lemma {:induction false} NewestSeenThroughRun(
      s: State, steps: seq<Step>, t: State, c: CallId, f: Family, ids: set<SessionId>)
    requires Inv(s) && Saw(s, c, f, ids) && Runs(s, steps, t)
    requires forall i :: 0 <= i < |steps| ==> LeavesOpen(steps[i], c)
    ensures Saw(t, c, f, ids)
    ensures t.history.head[f] in ids <==> s.history.head[f] in ids && !Overtakes(s, steps, f)
    decreases |steps|
  {
    if steps != [] {
      assert LeavesOpen(steps[0], c);
      NewestSeenAfterStep(s, steps[0], c, f, ids);
      NewestSeenThroughRun(Apply(s, steps[0]), steps[1..], t, c, f, ids);
    }
  }

  lemma SnapshotSeesNewest(s: State, c: CallId)
    requires Inv(s) && Enabled(s, TakeSnapshot(c))
    ensures var ids, f := FamilyIds(s.store.sessions, s.txs[c].family), s.txs[c].family;
      Saw(Apply(s, TakeSnapshot(c)), c, f, ids) && s.history.head[f] in ids
  {
    assert PlanOk(s.store, s.locks, s.history, c, s.txs[c]);
  }

  /**
   A reported reuse, from the revoking statement's snapshot to the commit: the family has no live
   session, then or later, if and only if no rotation of the family committed in between, or the
   newest session is dead for another reason.
   */
  lemma ReuseEndsFamilyUnlessOvertaken(s: State, c: CallId, steps: seq<Step>, t: State, fate: CommitFate)
    requires Inv(s) && Enabled(s, TakeSnapshot(c)) && Runs(Apply(s, TakeSnapshot(c)), steps, t)
    requires forall i :: 0 <= i < |steps| ==> LeavesOpen(steps[i], c)
    requires Enabled(t, Commit(c, fate)) && !fate.NotApplied?
    ensures s.txs[c].family in t.history.head && t.history.head[s.txs[c].family] in t.store.sessions
    ensures (forall u :: Leads(Apply(t, Commit(c, fate)), u) ==> Dead(u, s.txs[c].family)) <==>
      || !Overtakes(Apply(s, TakeSnapshot(c)), steps, s.txs[c].family)
      || !Live(t.store.sessions[t.history.head[s.txs[c].family]])
  {
    var first, f := Apply(s, TakeSnapshot(c)), s.txs[c].family;
    SnapshotSeesNewest(s, c);
    StepKeepsInv(s, TakeSnapshot(c));
    NewestSeenThroughRun(first, steps, t, c, f, FamilyIds(s.store.sessions, f));
    RunKeepsInv(first, steps, t);
    RevocationHasFamily(t, c);
    ReuseEndsFamilyExactly(t, c, fate);
  }

  // ---------------------------------------------------------------------------------------
  // An undisturbed call
  // ---------------------------------------------------------------------------------------

  /** Nothing else is open, and what call `c` will create is new. */
  predicate Undisturbed(s: State, c: CallId, r: Request) {
    && s.txs == map[] && s.locks == map[] && c !in s.history.asked
    && r.child !in s.store.sessions && r.child !in s.history.ids
    && r.childToken !in s.store.byToken && r.childToken !in s.history.tokens
  }

  /** How the call ends: nothing is left open. */
  ghost predicate Ended(s: State, t: State, c: CallId) {
    t.txs == map[] && t.locks == map[] && c in t.answers && t.answers == s.answers[c := t.answers[c]]
  }

  lemma Asked(s: State, c: CallId, r: Request, issues: bool) returns (t: State)
    requires Undisturbed(s, c, r)
    ensures Enabled(s, Ask(c, r, issues)) && t == Apply(s, Ask(c, r, issues))
    ensures t.store == s.store && t.answers == s.answers && t.txs == map[c := PlanOf(s, r, issues)]
    ensures forall id :: id in t.locks ==> t.locks[id] == c
  {
    t := Apply(s, Ask(c, r, issues));
  }

  /** A refused call rolls back, whatever its plan was if a statement failed. */
  lemma RefusedRun(s: State, c: CallId, faults: bool, fails: bool) returns (steps: seq<Step>, t: State)
    requires c in s.txs && s.txs == map[c := s.txs[c]] && (faults || s.txs[c].Refusal?)
    requires forall id :: id in s.locks ==> s.locks[id] == c
    ensures Runs(s, steps, t) && Ended(s, t, c) && t.store == s.store
    ensures t.answers[c] == Failure(if faults || fails then DatabaseUnavailable else s.txs[c].error)
  {
    var last := Rollback(c, fails);
    if faults {
      var u := Apply(s, Fault(c));
      t := Apply(u, last);
      assert Runs(t, [], t);
      Extend(u, last, [], t);
      Extend(s, Fault(c), [last] + [], t);
      steps := [Fault(c)] + ([last] + []);
    } else {
      t := Apply(s, last);
      assert Runs(t, [], t);
      Extend(s, last, [], t);
      steps := [last] + [];
    }
  }

  /** A rotation commits. */
  lemma RotationRun(s: State, c: CallId, r: Request, id: SessionId, fate: CommitFate) returns (steps: seq<Step>, t: State)
    requires id in s.store.sessions && s.txs == map[c := Rotation(id, r.child, ChildOf(s.store.sessions[id], id, r))]
    requires forall l :: l in s.locks ==> s.locks[l] == c
    ensures Runs(s, steps, t) && Ended(s, t, c)
    ensures t.answers[c] == if fate == Acknowledged then Pair(r.child) else Failure(DatabaseUnavailable)
    ensures if fate == NotApplied then t.store == s.store else RotatedInto(s.store, t.store, id, r)
  {
    var last := Commit(c, fate);
    t := Apply(s, last);
    assert Runs(t, [], t);
    Extend(s, last, [], t);
    steps := [last] + [];
  }

  lemma RevocationApplied(s: State, c: CallId, f: Family) returns (steps: seq<Step>, t: State)
    requires s.txs == map[c := Revocation(f, None, false)] && forall l :: l in s.locks ==> s.locks[l] == c
    ensures Runs(s, steps, t) && t.store == s.store && t.answers == s.answers
    ensures t.txs == map[c := Revocation(f, Some(FamilyIds(s.store.sessions, f)), true)]
    ensures forall l :: l in t.locks ==> t.locks[l] == c
  {
    var u := Apply(s, TakeSnapshot(c));
    t := Apply(u, Revoke(c));
    assert Runs(t, [], t);
    Extend(u, Revoke(c), [], t);
    Extend(s, TakeSnapshot(c), [Revoke(c)] + [], t);
    steps := [TakeSnapshot(c)] + ([Revoke(c)] + []);
  }

  /** A reuse takes its snapshot, revokes and commits. */
  lemma RevocationRun(s: State, c: CallId, f: Family, fate: CommitFate) returns (steps: seq<Step>, t: State)
    requires s.txs == map[c := Revocation(f, None, false)] && forall l :: l in s.locks ==> s.locks[l] == c
    ensures Runs(s, steps, t) && Ended(s, t, c)
    ensures t.answers[c] == Failure(if fate == Acknowledged then RefreshTokenReused else DatabaseUnavailable)
    ensures if fate == NotApplied then t.store == s.store else FamilyRevoked(s.store, t.store, f)
  {
    var first, u := RevocationApplied(s, c, f);
    var last := Commit(c, fate);
    t := Apply(u, last);
    assert Runs(t, [], t);
    Extend(u, last, [], t);
    Join(s, first, u, [last] + [], t);
    steps := first + ([last] + []);
  }

  lemma PlannedRun(s: State, u: State, c: CallId, r: Request, env: Environment) returns (steps: seq<Step>, t: State)
    requires env.begins && u.txs == map[c := PlanOf(s, r, env.issues)] && u.store == s.store && u.answers == s.answers
    requires forall l :: l in u.locks ==> u.locks[l] == c
    requires IndexOk(s.store.sessions, s.store.byToken)
    ensures Runs(u, steps, t) && Ended(s, t, c) && Outcome(s.store, r, env, t.store, t.answers[c])
  {
    var found, plan := Found(s.store, r.token), PlanOf(s, r, env.issues);
    if found.Some? {
      assert Presents(s.store, r.token, found.value);
    }
    if env.rotateFails || plan.Refusal? {
      steps, t := RefusedRun(u, c, env.rotateFails, env.rollbackFails);
    } else if plan.Rotation? {
      steps, t := RotationRun(u, c, r, found.value, env.commit);
    } else {
      steps, t := RevocationRun(u, c, plan.family, env.commit);
    }
  }

  /** `refresh` without competitors is one of the runs, so every run property covers it. */
  lemma CallIsARun(s: State, c: CallId, r: Request, env: Environment) returns (steps: seq<Step>, t: State)
    requires env.begins && Undisturbed(s, c, r) && IndexOk(s.store.sessions, s.store.byToken)
    ensures Runs(s, steps, t) && Ended(s, t, c) && Outcome(s.store, r, env, t.store, t.answers[c])
  {
    var u := Asked(s, c, r, env.issues);
    var rest;
    rest, t := PlannedRun(s, u, c, r, env);
    Extend(s, Ask(c, r, env.issues), rest, t);
    steps := [Ask(c, r, env.issues)] + rest;
  }

  /** The outcome is told completely: two calls that meet it agree. */
  lemma OutcomeIsUnique(before: Store, r: Request, env: Environment, a: Store, x: Answer, b: Store, y: Answer)
    requires IndexOk(before.sessions, before.byToken)
    requires Outcome(before, r, env, a, x) && Outcome(before, r, env, b, y)
    ensures x == y && a == b
  {
    VerdictsAreExact(before, r);
    SameAnswer(before, r, env, a, x, b, y);
    assert a.sessions == b.sessions && a.byToken == b.byToken && a.accounts == b.accounts;
  }

  lemma SameAnswer(before: Store, r: Request, env: Environment, a: Store, x: Answer, b: Store, y: Answer)
    requires Outcome(before, r, env, a, x) && Outcome(before, r, env, b, y)
    ensures x == y
  {
    if x.Failure? && y.Failure? {
      match x.error {
        case DatabaseUnavailable =>
          match y.error {
            case DatabaseUnavailable =>
            case _ =>
          }
        case _ =>
      }
    }
  }

  // ---------------------------------------------------------------------------------------
  // A rotation that overtakes the revoking statement
  // ---------------------------------------------------------------------------------------

  function Row(parent: Option<SessionId>, token: Digest, consumed: bool, revoked: bool): Session {
    Session(0, 0, parent, token, 50, consumed, revoked, false)
  }

  const FIRST := Request(100, 1, 101, 50, 10)
  const REPLAY := Request(100, 2, 102, 50, 10)
  const SECOND := Request(101, 3, 103, 50, 10)
  const ACCOUNTS: map<UserId, Account> := map[0 := Account(false, false)]

  lemma Extend(s: State, step: Step, rest: seq<Step>, t: State)
    requires Enabled(s, step) && Runs(Apply(s, step), rest, t)
    ensures Runs(s, [step] + rest, t)
  {
    assert ([step] + rest)[1..] == rest;
  }

  /** Sessions 0 and 1, the first consumed by the second. */
  const TWO := Store(
    map[0 := Row(None, 100, true, false), 1 := Row(Some(0), 101, false, false)], map[100 := 0, 101 := 1], ACCOUNTS)

  /** The same family after session 1 was rotated into session 3. */
  const THREE := Store(
    map[0 := Row(None, 100, true, false), 1 := Row(Some(0), 101, true, false), 3 := Row(Some(1), 103, false, false)],
    map[100 := 0, 101 := 1, 103 := 3], ACCOUNTS)

  lemma FirstRotation() returns (steps: seq<Step>, t: State)
    ensures Runs(EMPTY, steps, t) && t.store == TWO && t.txs == map[] && t.locks == map[] && t.answers == map[1 := Pair(1)]
    ensures t.history.ids == map[1 := 1] && t.history.tokens == map[101 := 1] && t.history.asked == map[1 := FIRST]
  {
    var a, b, c, d := SetAccount(0, Account(false, false)), Login(0, Row(None, 100, false, false)), Ask(1, FIRST, true), Commit(1, Acknowledged);
    var s1 := Apply(EMPTY, a);
    var s2 := Apply(s1, b);
    var s3 := Apply(s2, c);
    assert s3.txs[1] == Rotation(0, 1, Row(Some(0), 101, false, false));
    t := Apply(s3, d);
    assert t.store.sessions == TWO.sessions && t.store.byToken == TWO.byToken;
    assert Runs(t, [], t);
    Extend(s3, d, [], t);
    Extend(s2, c, [d] + [], t);
    Extend(s1, b, [c] + ([d] + []), t);
    Extend(EMPTY, a, [b] + ([c] + ([d] + [])), t);
    steps := [a] + ([b] + ([c] + ([d] + [])));
  }

  const REPLAYING := Revocation(0, Some({0, 1}), false)

  lemma ReplayAsks(s: State) returns (t: State)
    requires s.store == TWO && s.txs == map[] && s.locks == map[]
    requires s.history.ids == map[1 := 1] && s.history.tokens == map[101 := 1] && s.history.asked == map[1 := FIRST]
    ensures Enabled(s, Ask(2, REPLAY, true)) && t == Apply(s, Ask(2, REPLAY, true))
    ensures t.store == TWO && t.locks == map[0 := 2] && t.txs == map[2 := Revocation(0, None, false)]
    ensures t.history.ids.Keys == {1, 2} && t.history.tokens.Keys == {101, 102} && t.history.asked.Keys == {1, 2}
  {
    t := Apply(s, Ask(2, REPLAY, true));
    assert PlanOf(s, REPLAY, true) == Revocation(0, None, false);
  }

  lemma ReplayLooks(s: State) returns (t: State)
    requires s.store == TWO && s.txs == map[2 := Revocation(0, None, false)]
    ensures Enabled(s, TakeSnapshot(2)) && t == Apply(s, TakeSnapshot(2)) && t == s.(txs := map[2 := REPLAYING])
  {
    assert FamilyIds(TWO.sessions, 0) == {0, 1};
    t := Apply(s, TakeSnapshot(2));
    assert t.txs == map[2 := REPLAYING];
  }

  /** The replay takes its snapshot of the family. */
  lemma ReplayStarts(s: State) returns (steps: seq<Step>, t: State)
    requires s.store == TWO && s.txs == map[] && s.locks == map[]
    requires s.history.ids == map[1 := 1] && s.history.tokens == map[101 := 1] && s.history.asked == map[1 := FIRST]
    ensures Runs(s, steps, t) && t.store == TWO && t.locks == map[0 := 2] && t.txs == map[2 := REPLAYING]
    ensures t.history.ids.Keys == {1, 2} && t.history.tokens.Keys == {101, 102} && t.history.asked.Keys == {1, 2}
  {
    var a, b := Ask(2, REPLAY, true), TakeSnapshot(2);
    var s1 := ReplayAsks(s);
    t := ReplayLooks(s1);
    assert Runs(t, [], t);
    Extend(s1, b, [], t);
    Extend(s, a, [b] + [], t);
    steps := [a] + ([b] + []);
  }

  /** The second rotation runs from start to end. */
  lemma SecondRotation(s: State) returns (steps: seq<Step>, t: State)
    requires s.store == TWO && s.locks == map[0 := 2] && s.txs == map[2 := REPLAYING]
    requires s.history.ids.Keys == {1, 2} && s.history.tokens.Keys == {101, 102} && s.history.asked.Keys == {1, 2}
    ensures Runs(s, steps, t) && t.store == THREE && t.locks == map[0 := 2] && t.txs == map[2 := REPLAYING]
  {
    var a, b := Ask(3, SECOND, true), Commit(3, Acknowledged);
    var s1 := Apply(s, a);
    assert s1.txs == map[2 := REPLAYING, 3 := Rotation(1, 3, Row(Some(1), 103, false, false))];
    t := SecondCommits(s1);
    assert Runs(t, [], t);
    Extend(s1, b, [], t);
    Extend(s, a, [b] + [], t);
    steps := [a] + ([b] + []);
  }

  lemma SecondCommits(s: State) returns (t: State)
    requires s.store == TWO && s.locks == map[0 := 2, 1 := 3]
    requires s.txs == map[2 := REPLAYING, 3 := Rotation(1, 3, Row(Some(1), 103, false, false))]
    ensures Enabled(s, Commit(3, Acknowledged)) && t == Apply(s, Commit(3, Acknowledged))
    ensures t.store == THREE && t.locks == map[0 := 2] && t.txs == map[2 := REPLAYING]
  {
    t := Apply(s, Commit(3, Acknowledged));
    assert t.store.sessions == THREE.sessions && t.store.byToken == THREE.byToken;
  }

  lemma ReplayRevokes(s: State) returns (t: State)
    requires s.store == THREE && s.locks == map[0 := 2] && s.txs == map[2 := REPLAYING]
    ensures Enabled(s, Revoke(2)) && t == Apply(s, Revoke(2))
    ensures t.store == THREE && t.txs == map[2 := REPLAYING.(applied := true)]
  {
    t := Apply(s, Revoke(2));
  }

  lemma ReplayEnds(s: State) returns (steps: seq<Step>, t: State)
    requires s.store == THREE && s.locks == map[0 := 2] && s.txs == map[2 := REPLAYING]
    ensures Runs(s, steps, t) && 2 in t.answers && t.answers[2] == Failure(RefreshTokenReused)
    ensures 3 in t.store.sessions && t.store.sessions[3] == Row(Some(1), 103, false, false)
  {
    var a, b := Revoke(2), Commit(2, Acknowledged);
    var s1 := ReplayRevokes(s);
    t := Apply(s1, b);
    assert Runs(t, [], t);
    Extend(s1, b, [], t);
    Extend(s, a, [b] + [], t);
    steps := [a] + ([b] + []);
  }

  lemma {:induction false} Join(s: State, first: seq<Step>, t: State, second: seq<Step>, u: State)
    requires Runs(s, first, t) && Runs(t, second, u)
    ensures Runs(s, first + second, u)
    decreases |first|
  {
    if first == [] {
      assert first + second == second;
    } else {
      assert (first + second)[1..] == first[1..] + second;
      Join(Apply(s, first[0]), first[1..], t, second, u);
    }
  }

  /** A reachable state where a caller was told "reused" and the family has a live session. */
  lemma OvertakenReuse() returns (t: State)
    ensures Reachable(t) && 2 in t.answers && t.answers[2] == Failure(RefreshTokenReused) && !Dead(t, 0)
  {
    var a, s := FirstRotation();
    var b, u := ReplayStarts(s);
    var c, v := SecondRotation(u);
    var d;
    d, t := ReplayEnds(v);
    Join(u, c, v, d, t);
    Join(s, b, u, c + d, t);
    Join(EMPTY, a, s, b + (c + d), t);
    assert Live(t.store.sessions[3]);
  }
}
