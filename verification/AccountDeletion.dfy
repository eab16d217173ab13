/**
 The account-deletion saga: re-authentication and revocation at Apple, then the grace deletion and its
 push fences in one transaction, under every answer its collaborators can give.
 */
module AccountDeletion {
  import opened Common

  type UserId = nat
  type GroupId = nat
  type Subject = nat

  const MAX_IDENTITY_TOKEN := 8192
  const MAX_AUTHORIZATION_CODE := 4096
  const MIN_NONCE := 16
  const MAX_NONCE := 256
  const MAX_COUNT: nat := 0xFFFF_FFFF_FFFF_FFFF

  datatype Error =
    | RequestValidation
    | GroupOwnershipTransferRequired
    | AccountNotFound
    | AppleReauthenticationRequired
    | AppleIdentityTokenInvalid
    | AppleSubjectMismatch
    | AppleAuthorizationCodeInvalid
    | ProviderUnavailable
    | DeletionFailedAfterRevoke
    | DatabaseUnavailable

  datatype RepositoryError = OwnershipTransfer | NotFound | InvalidData | RepositoryUnavailable
  datatype IdentityError = IdentityUnavailable | InvalidIdentity | IdentityMisconfigured
  datatype RevocationError = RevocationUnavailable | InvalidCode | RevocationMisconfigured

  datatype Proof = Proof(identityToken: Bytes, authorizationCode: Bytes, rawNonce: Bytes)
  datatype Command = Command(user: UserId, proof: Option<Proof>)
  datatype Identity = Identity(apple: bool, subject: Subject)

  /** What is committed: accounts in their grace period and the pushes fenced off. */
  datatype Db = Db(grace: set<UserId>, fences: set<(GroupId, UserId)>)

  /** The calls a deletion makes, in order, with what came back. */
  datatype Event =
    | LookedUp
    | Began
    | Prepared(ok: bool)
    | RolledBack(ok: bool)
    | Verified(subject: Option<Subject>)
    | Revoked(code: Bytes, ok: bool)
    | GraceStarted(ok: bool)
    | Fenced(group: GroupId, ok: bool)
    | Committed(ok: bool)

  datatype CommitFate = Acknowledged | AcknowledgementLost | NotApplied

  /** The answers of one transaction. */
  datatype Transaction = Transaction(
    begins: bool, prepare: Result<seq<GroupId>, RepositoryError>, grace: Result<nat, RepositoryError>,
    fences: GroupId -> bool, commit: CommitFate, rollsBack: bool)

  /** The answers of every collaborator; a provider that is not configured is absent. */
  datatype Environment = Environment(
    control: Bytes -> bool, identity: Result<Option<Identity>, RepositoryError>, check: Transaction,
    verify: Option<Result<Subject, IdentityError>>, revoke: Option<Result<(), RevocationError>>, delete: Transaction)

  predicate ValidProof(env: Environment, p: Proof) {
    && 0 < |p.identityToken| <= MAX_IDENTITY_TOKEN && !env.control(p.identityToken)
    && 0 < |p.authorizationCode| <= MAX_AUTHORIZATION_CODE && !env.control(p.authorizationCode)
    && MIN_NONCE <= |p.rawNonce| <= MAX_NONCE && !env.control(p.rawNonce)
  }

  /** The account's live identity is an Apple one. */
  predicate SignsInWithApple(env: Environment) {
    env.identity.Ok? && env.identity.value.Some? && env.identity.value.value.apple
  }

  function FromRepository(e: RepositoryError): Error {
    match e
    case OwnershipTransfer => GroupOwnershipTransferRequired
    case NotFound => AccountNotFound
    case InvalidData => DatabaseUnavailable
    case RepositoryUnavailable => DatabaseUnavailable
  }

  function FromIdentity(e: IdentityError): Error {
    if e.InvalidIdentity? then AppleIdentityTokenInvalid else ProviderUnavailable
  }

  function FromRevocation(e: RevocationError): Error {
    if e.InvalidCode? then AppleAuthorizationCodeInvalid else ProviderUnavailable
  }

  function AfterRevoke(e: Error): Error {
    if e.GroupOwnershipTransferRequired? then GroupOwnershipTransferRequired else DeletionFailedAfterRevoke
  }

  /** Every membership fenced, in order. */
  function AllFenced(groups: seq<GroupId>): seq<Event> {
    seq(|groups|, i requires 0 <= i < |groups| => Fenced(groups[i], true))
  }

  function FencesOf(user: UserId, groups: seq<GroupId>): set<(GroupId, UserId)> {
    set g | g in groups :: (g, user)
  }

  // ---------------------------------------------------------------------------------------
  // Which answers lead where
  // ---------------------------------------------------------------------------------------

  /** The transaction comes to its commit: it began, and everything in it went well. */
  ghost predicate Ready(tx: Transaction) {
    && tx.begins && tx.prepare.Ok? && tx.grace.Ok? && tx.grace.value + |tx.prepare.value| <= MAX_COUNT
    && forall g :: g in tx.prepare.value ==> tx.fences(g)
  }

  /** Preparation or grace start was refused with `e`, and the transaction was rolled back. */
  ghost predicate Refused(tx: Transaction, e: RepositoryError) {
    && tx.begins && tx.rollsBack
    && (tx.prepare == Err(e) || (tx.prepare.Ok? && |tx.prepare.value| <= MAX_COUNT && tx.grace == Err(e)))
  }

  ghost predicate Succeeds(tx: Transaction) {
    Ready(tx) && tx.commit == Acknowledged
  }

  /** `after` is `before` with the account in its grace period and a fence for each of `groups`. */
  ghost predicate StartsGrace(before: Db, after: Db, user: UserId, groups: seq<GroupId>) {
    && after.grace == before.grace + {user}
    && forall g, u :: (g, u) in after.fences <==> (g, u) in before.fences || (u == user && g in groups)
  }

  /** The account's own Apple subject presents a well-formed proof. */
  ghost predicate Presents(cmd: Command, env: Environment) {
    SignsInWithApple(env) && cmd.proof.Some? && ValidProof(env, cmd.proof.value)
  }

  /** The look before the revocation passed. */
  ghost predicate Checked(cmd: Command, env: Environment) {
    Presents(cmd, env) && env.check.begins && env.check.prepare.Ok? && env.check.rollsBack
  }

  ghost predicate Verifies(cmd: Command, env: Environment) {
    Checked(cmd, env) && env.verify == Some(Ok(env.identity.value.value.subject))
  }

  ghost predicate Revokes(cmd: Command, env: Environment) {
    Verifies(cmd, env) && env.revoke.Some? && env.revoke.value.Ok?
  }

  /** Apple could not verify the identity, for no fault of the proof. */
  ghost predicate ProviderFails(env: Environment) {
    env.verify.None? || (env.verify.value.Err? && !env.verify.value.error.InvalidIdentity?)
  }

  ghost predicate RevocationFails(env: Environment) {
    env.revoke.None? || (env.revoke.value.Err? && !env.revoke.value.error.InvalidCode?)
  }

  /** The account has no Apple authorization, and no proof came. */
  ghost predicate NeedsNoProof(cmd: Command, env: Environment) {
    env.identity.Ok? && !SignsInWithApple(env) && cmd.proof.None?
  }

  /** The grace deletion is called. */
  ghost predicate Proceeds(cmd: Command, env: Environment) {
    NeedsNoProof(cmd, env) || Revokes(cmd, env)
  }

  /** The calls that precede a revocation: everything up to a matching subject went well. */
  function BeforeRevoke(subject: Subject): seq<Event> {
    [LookedUp, Began, Prepared(true), RolledBack(true), Verified(Some(subject))]
  }

  predicate RevokeSucceeded(events: seq<Event>) {
    exists k :: 0 <= k < |events| && events[k].Revoked? && events[k].ok
  }

  predicate NeverRevokes(events: seq<Event>) {
    forall k :: 0 <= k < |events| ==> !events[k].Revoked?
  }

  lemma LookupFirst(rest: seq<Event>, subject: Subject)
    ensures RevokeSucceeded([LookedUp] + rest) <==> RevokeSucceeded(rest)
    ensures forall k :: 0 <= k < |rest| && rest[..k] == BeforeRevoke(subject)[1..] ==>
      ([LookedUp] + rest)[..k + 1] == BeforeRevoke(subject)
  {
    var all := [LookedUp] + rest;
    assert forall k :: 0 <= k < |rest| ==> all[k + 1] == rest[k];
    if k :| 0 <= k < |rest| && rest[k].Revoked? && rest[k].ok {
      assert all[k + 1].Revoked? && all[k + 1].ok;
    }
    if k :| 0 <= k < |all| && all[k].Revoked? && all[k].ok {
      assert rest[k - 1].Revoked? && rest[k - 1].ok;
    }
    assert BeforeRevoke(subject) == [LookedUp] + BeforeRevoke(subject)[1..];
    forall k | 0 <= k < |rest| ensures all[..k + 1] == [LookedUp] + rest[..k] {
    }
  }

  class AccountDeletionService {
    var db: Db

    constructor (db: Db)
      ensures this.db == db
    {
      this.db := db;
    }

    /** `finish`: commits `pending` on success, rolls back otherwise. */
    method Finish(tx: Transaction, pending: Db, result: Result<nat, Error>) returns (r: Result<nat, Error>, events: seq<Event>)
      modifies this
      ensures result.Ok? ==>
        && r == (if tx.commit == Acknowledged then result else Err(DatabaseUnavailable))
        && db == (if tx.commit == NotApplied then old(db) else pending)
      ensures result.Err? ==> db == old(db) && r == if tx.rollsBack then result else Err(DatabaseUnavailable)
      ensures events == [if result.Ok? then Committed(tx.commit == Acknowledged) else RolledBack(tx.rollsBack)]
    {
      if result.Ok? {
        if tx.commit != NotApplied {
          db := pending;
        }
        events := [Committed(tx.commit == Acknowledged)];
        r := if tx.commit == Acknowledged then result else Err(DatabaseUnavailable);
      } else {
        events := [RolledBack(tx.rollsBack)];
        r := if tx.rollsBack then result else Err(DatabaseUnavailable);
      }
    }

    /** The loop that fences each live membership on the open transaction. */
    method FenceAll(user: UserId, tx: Transaction, groups: seq<GroupId>, started: Db)
      returns (pending: Db, ok: bool, events: seq<Event>)
      ensures ok <==> forall g :: g in groups ==> tx.fences(g)
      ensures ok ==> pending == Db(started.grace, started.fences + FencesOf(user, groups)) && events == AllFenced(groups)
      ensures NeverRevokes(events)
    {
      pending, events := started, [];
      for i := 0 to |groups|
        invariant pending == Db(started.grace, started.fences + FencesOf(user, groups[..i]))
        invariant forall j :: 0 <= j < i ==> tx.fences(groups[j])
        invariant events == AllFenced(groups[..i])
      {
        if !tx.fences(groups[i]) {
          return pending, false, events + [Fenced(groups[i], false)];
        }
        events := events + [Fenced(groups[i], true)];
        assert FencesOf(user, groups[..i + 1]) == FencesOf(user, groups[..i]) + {(groups[i], user)} by {
          assert groups[..i + 1] == groups[..i] + [groups[i]];
        }
        pending := pending.(fences := pending.fences + {(groups[i], user)});
      }
      assert groups[..|groups|] == groups;
      ok := true;
    }

    /** `delete_account_grace`: all of it is committed together, or nothing is. */
    method DeleteGrace(user: UserId, tx: Transaction) returns (r: Result<nat, Error>, events: seq<Event>)
      modifies this
      ensures r.Ok? <==> Succeeds(tx)
      ensures r.Ok? ==> r.value == tx.grace.value + |tx.prepare.value|
      ensures r == Err(GroupOwnershipTransferRequired) <==> Refused(tx, OwnershipTransfer)
      ensures r == Err(AccountNotFound) <==> Refused(tx, NotFound)
      ensures r == Err(DatabaseUnavailable) <==>
        !Succeeds(tx) && !Refused(tx, OwnershipTransfer) && !Refused(tx, NotFound)
      ensures Ready(tx) && tx.commit != NotApplied ==> StartsGrace(old(db), db, user, tx.prepare.value)
      ensures !Ready(tx) || tx.commit == NotApplied ==> db == old(db)
      ensures r.Ok? ==> events == [Began, Prepared(true), GraceStarted(true)] + AllFenced(tx.prepare.value) + [Committed(true)]
      ensures NeverRevokes(events)
    {
      if !tx.begins {
        return Err(DatabaseUnavailable), [];
      }
      events := [Began, Prepared(tx.prepare.Ok?)];
      var last: seq<Event>;
      if tx.prepare.Err? {
        r, last := Finish(tx, db, Err(FromRepository(tx.prepare.error)));
        return r, events + last;
      }
      var groups := tx.prepare.value;
      if |groups| > MAX_COUNT {
        r, last := Finish(tx, db, Err(DatabaseUnavailable));
        return r, events + last;
      }
      events := events + [GraceStarted(tx.grace.Ok?)];
      if tx.grace.Err? {
        r, last := Finish(tx, db, Err(FromRepository(tx.grace.error)));
        return r, events + last;
      }
      var count := tx.grace.value + |groups|;
      if count > MAX_COUNT {
        r, last := Finish(tx, db, Err(DatabaseUnavailable));
        return r, events + last;
      }
      var pending, fenced, fences := FenceAll(user, tx, groups, db.(grace := db.grace + {user}));
      assert fenced ==> StartsGrace(db, pending, user, groups);
      events := events + fences;
      r, last := Finish(tx, pending, if fenced then Ok(count) else Err(DatabaseUnavailable));
      events := events + last;
    }

    /** `verify_grace_deletion_preconditions`: a look inside a transaction that is always undone. */
    method CheckPreconditions(tx: Transaction) returns (r: Result<(), Error>, events: seq<Event>)
      ensures r.Ok? <==> tx.begins && tx.prepare.Ok? && tx.rollsBack
      ensures r.Ok? ==> events == [Began, Prepared(true), RolledBack(true)]
      ensures r == Err(GroupOwnershipTransferRequired) <==> tx.begins && tx.prepare == Err(OwnershipTransfer)
      ensures r == Err(AccountNotFound) <==> tx.begins && tx.prepare == Err(NotFound)
      ensures r.Err? ==> r.error in {GroupOwnershipTransferRequired, AccountNotFound, DatabaseUnavailable}
      ensures NeverRevokes(events)
    {
      if !tx.begins {
        return Err(DatabaseUnavailable), [];
      }
      events := [Began, Prepared(tx.prepare.Ok?), RolledBack(tx.rollsBack)];
      if tx.prepare.Err? {
        return Err(FromRepository(tx.prepare.error)), events;
      }
      r := if tx.rollsBack then Ok(()) else Err(DatabaseUnavailable);
    }

    /** `verify_and_revoke_apple`: the revocation is called only for a matching subject. */
    method VerifyAndRevoke(env: Environment, expected: Subject, proof: Proof) returns (r: Result<(), Error>, events: seq<Event>)
      ensures r.Ok? <==> env.verify == Some(Ok(expected)) && env.revoke.Some? && env.revoke.value.Ok?
      ensures r.Ok? ==> events == [Verified(Some(expected)), Revoked(proof.authorizationCode, true)]
      ensures r.Err? ==> NeverRevokes(events) || events == [Verified(Some(expected)), Revoked(proof.authorizationCode, false)]
      ensures r == Err(AppleIdentityTokenInvalid) <==> env.verify == Some(Err(InvalidIdentity))
      ensures r == Err(AppleSubjectMismatch) <==>
        env.verify.Some? && env.verify.value.Ok? && env.verify.value.value != expected
      ensures r == Err(AppleAuthorizationCodeInvalid) <==>
        env.verify == Some(Ok(expected)) && env.revoke == Some(Err(InvalidCode))
      ensures r.Err? ==>
        r.error in {ProviderUnavailable, AppleIdentityTokenInvalid, AppleSubjectMismatch, AppleAuthorizationCodeInvalid}
    {
      if env.verify.None? {
        return Err(ProviderUnavailable), [];
      }
      if env.verify.value.Err? {
        return Err(FromIdentity(env.verify.value.error)), [Verified(None)];
      }
      events := [Verified(Some(env.verify.value.value))];
      if env.verify.value.value != expected {
        return Err(AppleSubjectMismatch), events;
      }
      if env.revoke.None? {
        return Err(ProviderUnavailable), events;
      }
      events := events + [Revoked(proof.authorizationCode, env.revoke.value.Ok?)];
      r := if env.revoke.value.Ok? then Ok(()) else Err(FromRevocation(env.revoke.value.error));
    }

    /**
     `delete_account`, on every schedule of answers: success, each error and the change of the database if
     and only if their answers. A revocation is called at most once, with the proof's code, and only after
     everything before it went well for the account's own subject. The database changes wholly or not at all.
     */
    method DeleteAccount(cmd: Command, env: Environment) returns (r: Result<nat, Error>, events: seq<Event>)
      modifies this
      ensures forall k :: 0 <= k < |events| && events[k].Revoked? ==>
        && SignsInWithApple(env) && cmd.proof.Some? && ValidProof(env, cmd.proof.value) && events[k].code == cmd.proof.value.authorizationCode
        && events[..k] == BeforeRevoke(env.identity.value.value.subject)
      ensures RevokeSucceeded(events) <==> Revokes(cmd, env)
      ensures r.Ok? <==> Proceeds(cmd, env) && Succeeds(env.delete)
      ensures r.Ok? ==> r.value == env.delete.grace.value + |env.delete.prepare.value|
      ensures Proceeds(cmd, env) && Ready(env.delete) && env.delete.commit != NotApplied ==>
        StartsGrace(old(db), db, cmd.user, env.delete.prepare.value)
      ensures !Proceeds(cmd, env) || !Ready(env.delete) || env.delete.commit == NotApplied ==>
        db == old(db)
      ensures r == Err(RequestValidation) <==>
        env.identity.Ok? && cmd.proof.Some? && (SignsInWithApple(env) ==> !ValidProof(env, cmd.proof.value))
      ensures r == Err(AppleReauthenticationRequired) <==> SignsInWithApple(env) && cmd.proof.None?
      ensures r == Err(RequestValidation) || r == Err(AppleReauthenticationRequired) ==> events == [LookedUp]
      ensures r == Err(AppleIdentityTokenInvalid) <==> Checked(cmd, env) && env.verify == Some(Err(InvalidIdentity))
      ensures r == Err(AppleSubjectMismatch) <==>
        && Checked(cmd, env) && env.verify.Some? && env.verify.value.Ok?
        && env.verify.value.value != env.identity.value.value.subject
      ensures r == Err(AppleAuthorizationCodeInvalid) <==> Verifies(cmd, env) && env.revoke == Some(Err(InvalidCode))
      ensures r == Err(ProviderUnavailable) <==>
        || (Checked(cmd, env) && ProviderFails(env))
        || (Verifies(cmd, env) && RevocationFails(env))
      ensures r == Err(DeletionFailedAfterRevoke) <==>
        Revokes(cmd, env) && !Succeeds(env.delete) && !Refused(env.delete, OwnershipTransfer)
      ensures r == Err(GroupOwnershipTransferRequired) <==>
        || env.identity == Err(OwnershipTransfer)
        || (Presents(cmd, env) && env.check.begins && env.check.prepare == Err(OwnershipTransfer))
        || (Proceeds(cmd, env) && Refused(env.delete, OwnershipTransfer))
      ensures r == Err(AccountNotFound) <==>
        || env.identity == Err(NotFound)
        || (Presents(cmd, env) && env.check.begins && env.check.prepare == Err(NotFound))
        || (NeedsNoProof(cmd, env) && Refused(env.delete, NotFound))
    {
      events := [LookedUp];
      if env.identity.Err? {
        return Err(FromRepository(env.identity.error)), events;
      }
      var rest: seq<Event>;
      if SignsInWithApple(env) {
        if cmd.proof.None? {
          return Err(AppleReauthenticationRequired), events;
        }
        if !ValidProof(env, cmd.proof.value) {
          return Err(RequestValidation), events;
        }
        r, rest := DeleteApple(cmd, env);
        LookupFirst(rest, env.identity.value.value.subject);
        return r, events + rest;
      }
      if cmd.proof.Some? {
        return Err(RequestValidation), events;
      }
      r, rest := DeleteGrace(cmd.user, env.delete);
      events := events + rest;
    }

    /** The Apple branch of `delete_account`, after the proof was found well-formed. */
    method DeleteApple(cmd: Command, env: Environment) returns (r: Result<nat, Error>, events: seq<Event>)
      requires Presents(cmd, env)
      modifies this
      ensures forall k :: 0 <= k < |events| && events[k].Revoked? ==>
        && events[k].code == cmd.proof.value.authorizationCode
        && events[..k] == BeforeRevoke(env.identity.value.value.subject)[1..]
      ensures RevokeSucceeded(events) <==> Revokes(cmd, env)
      ensures r.Ok? <==> Revokes(cmd, env) && Succeeds(env.delete)
      ensures r.Ok? ==> r.value == env.delete.grace.value + |env.delete.prepare.value|
      ensures Revokes(cmd, env) && Ready(env.delete) && env.delete.commit != NotApplied ==>
        StartsGrace(old(db), db, cmd.user, env.delete.prepare.value)
      ensures !Revokes(cmd, env) || !Ready(env.delete) || env.delete.commit == NotApplied ==> db == old(db)
      ensures r == Err(AppleIdentityTokenInvalid) <==> Checked(cmd, env) && env.verify == Some(Err(InvalidIdentity))
      ensures r == Err(AppleSubjectMismatch) <==>
        && Checked(cmd, env) && env.verify.Some? && env.verify.value.Ok?
        && env.verify.value.value != env.identity.value.value.subject
      ensures r == Err(AppleAuthorizationCodeInvalid) <==> Verifies(cmd, env) && env.revoke == Some(Err(InvalidCode))
      ensures r == Err(ProviderUnavailable) <==>
        || (Checked(cmd, env) && ProviderFails(env))
        || (Verifies(cmd, env) && RevocationFails(env))
      ensures r == Err(DeletionFailedAfterRevoke) <==>
        Revokes(cmd, env) && !Succeeds(env.delete) && !Refused(env.delete, OwnershipTransfer)
      ensures r == Err(GroupOwnershipTransferRequired) <==>
        || (env.check.begins && env.check.prepare == Err(OwnershipTransfer))
        || (Revokes(cmd, env) && Refused(env.delete, OwnershipTransfer))
      ensures r == Err(AccountNotFound) <==> env.check.begins && env.check.prepare == Err(NotFound)
      ensures r.Err? ==> r.error !in {RequestValidation, AppleReauthenticationRequired}
    {
      var checked, first := CheckPreconditions(env.check);
      if checked.Err? {
        return Err(checked.error), first;
      }
      var expected, proof := env.identity.value.value.subject, cmd.proof.value;
      var revoked, second := VerifyAndRevoke(env, expected, proof);
      events := first + second;
      if revoked.Err? {
        return Err(revoked.error), events;
      }
      var third: seq<Event>;
      r, third := DeleteGrace(cmd.user, env.delete);
      events := events + third;
      assert events[4] == Revoked(proof.authorizationCode, true);
      assert events[..4] == BeforeRevoke(expected)[1..];
      if r.Err? {
        r := Err(AfterRevoke(r.error));
      }
    }

    /** `start_operator_grace_deletion`: never revokes, and says whether there was something to revoke. */
    method StartOperatorDeletion(user: UserId, env: Environment) returns (r: Result<(nat, bool), Error>, events: seq<Event>)
      modifies this
      ensures NeverRevokes(events)
      ensures r.Ok? <==> env.identity.Ok? && Succeeds(env.delete)
      ensures r.Ok? ==>
        && r.value.0 == env.delete.grace.value + |env.delete.prepare.value|
        && (r.value.1 <==> SignsInWithApple(env))
      ensures env.identity.Ok? && Ready(env.delete) && env.delete.commit != NotApplied ==>
        StartsGrace(old(db), db, user, env.delete.prepare.value)
      ensures env.identity.Err? || !Ready(env.delete) || env.delete.commit == NotApplied ==> db == old(db)
      ensures r == Err(GroupOwnershipTransferRequired) <==>
        env.identity == Err(OwnershipTransfer) || (env.identity.Ok? && Refused(env.delete, OwnershipTransfer))
      ensures r == Err(AccountNotFound) <==>
        env.identity == Err(NotFound) || (env.identity.Ok? && Refused(env.delete, NotFound))
      ensures r.Err? ==> r.error in {GroupOwnershipTransferRequired, AccountNotFound, DatabaseUnavailable}
    {
      events := [LookedUp];
      if env.identity.Err? {
        return Err(FromRepository(env.identity.error)), events;
      }
      var notRevoked := SignsInWithApple(env);
      var report, rest := DeleteGrace(user, env.delete);
      events := events + rest;
      r := if report.Ok? then Ok((report.value, notRevoked)) else Err(report.error);
    }
  }
}
