/**
 The durable work queue shared by the outbox, push-delivery and object-cleanup workers:
 rows that are claimed under a lease, fenced by a claim generation, and finished or
 rescheduled by a compare-and-swap on owner, generation and unexpired lease.

 The first part models the three SQL statements as methods of a table and the worker step
 that calls them. The second part runs any number of workers against the table as a
 transition system and proves what every run keeps.
 */
module LeaseQueue {
  import opened Common

  type Id = nat
  type Time = int

  /** `Waiting` is `pending` or `retryable`; `Failed` is a permanent refusal, or the source was deleted. */
  datatype Status = Waiting | Claimed | Done | Failed | DeadLetter

  /** A `removed` row is soft-deleted or gone; no statement sees it any more. */
  datatype Row = Row(
    status: Status,
    owner: Option<string>,
    generation: nat,
    expiresAt: Option<Time>,
    attempts: nat,
    createdAt: Time,
    nextAttempt: Option<Time>,
    deadline: Option<Time>,
    removed: bool)

  datatype Claim = Claim(id: Id, owner: string, generation: nat, expiresAt: Time, attempts: nat)

  /** How a provider call ended. */
  datatype Outcome = Delivered | Refused(permanent: bool) | TimedOut

  /** What the worker reports for a claim; `Unavailable` is a repository error. */
  datatype Verdict = Success | RetryScheduled | FailedForGood | DeadLettered | StaleClaim | Unavailable

  /** What a worker asks for when a call failed: how long to wait, and how many failures a row may collect. */
  datatype Retry = Retry(delay: nat, limit: nat)

  /**
   The outbox and cleanup workers pass `retry` with every failure. The push worker passes a delay that
   grows with the attempts, and a limit of one for a refusal that cannot be retried.
   */
  datatype Config = Config(lease: nat, timeout: nat, margin: nat, retry: Retry)

  // ---------------------------------------------------------------------------------------
  // The statements
  // ---------------------------------------------------------------------------------------

  predicate Terminal(row: Row) {
    row.status in {Done, Failed, DeadLetter}
  }

  predicate Claimable(row: Row, now: Time) {
    && !row.removed
    && (|| (row.status == Waiting && (if row.nextAttempt.Some? then row.nextAttempt.value else row.createdAt) <= now)
        || (row.status == Claimed && row.expiresAt.Some? && row.expiresAt.value <= now))
  }

  function ClaimRow(row: Row, owner: string, lease: nat, now: Time): Row {
    row.(status := Claimed, owner := Some(owner), generation := row.generation + 1,
         expiresAt := Some(now + lease), nextAttempt := None)
  }

  function ClaimOf(id: Id, owner: string, row: Row, lease: nat, now: Time): Claim {
    Claim(id, owner, row.generation + 1, now + lease, row.attempts)
  }

  /** The fence of both completion statements. */
  predicate Holds(row: Row, claim: Claim, now: Time) {
    && !row.removed && row.status == Claimed
    && row.owner == Some(claim.owner)
    && row.generation == claim.generation
    && row.expiresAt.Some? && row.expiresAt.value > now
  }

  function Completed(row: Row): Row {
    row.(status := Done, owner := None, expiresAt := None, nextAttempt := None)
  }

  function AfterFailure(retry: Retry, row: Row, permanent: bool, now: Time): Row {
    var exhausted :=
      || row.attempts + 1 >= retry.limit
      || (row.deadline.Some? && row.deadline.value <= now + retry.delay);
    var status := if permanent then Failed else if exhausted then DeadLetter else Waiting;
    row.(status := status, attempts := row.attempts + 1, owner := None, expiresAt := None,
         nextAttempt := if status == Waiting then Some(now + retry.delay) else None)
  }

  /** The deletion of what a push announces fails and soft-deletes its unfinished row, whoever holds it. */
  function Stopped(row: Row): Row {
    row.(status := Failed, owner := None, expiresAt := None, removed := true)
  }

  function VerdictOf(row: Row): Verdict {
    match row.status
    case Waiting => RetryScheduled
    case Failed => FailedForGood
    case DeadLetter => DeadLettered
    case _ => Success
  }

  /** The row and the report after a worker records how its provider call ended. */
  function Settled(retry: Retry, row: Row, claim: Claim, outcome: Outcome, now: Time): (Row, Verdict) {
    if !Holds(row, claim, now) then (row, StaleClaim)
    else
      var after := if outcome.Delivered? then Completed(row)
                   else AfterFailure(retry, row, outcome.Refused? && outcome.permanent, now);
      (after, VerdictOf(after))
  }

  /** A retry at `now + retry.delay` would come no later than allowed. */
  predicate RetryFits(retry: Retry, row: Row, now: Time) {
    row.attempts + 1 < retry.limit && (row.deadline.Some? ==> now + retry.delay < row.deadline.value)
  }

  /** What each verdict says about the call that ended and the row it leaves. */
  lemma VerdictsAreExact(retry: Retry, row: Row, claim: Claim, outcome: Outcome, now: Time)
    ensures var (after, verdict) := Settled(retry, row, claim, outcome, now);
      && (verdict == StaleClaim <==> !Holds(row, claim, now))
      && (verdict == StaleClaim ==> after == row)
      && (verdict != StaleClaim ==>
            && after.owner.None? && after.expiresAt.None? && after.removed == row.removed
            && after.generation == row.generation && after.createdAt == row.createdAt && after.deadline == row.deadline)
      && (verdict == Success <==> Holds(row, claim, now) && outcome == Delivered)
      && (verdict == Success <==> verdict != StaleClaim && after.status == Done)
      && (verdict == FailedForGood <==> Holds(row, claim, now) && outcome == Refused(true))
      && (verdict == RetryScheduled <==>
            Holds(row, claim, now) && outcome in {Refused(false), TimedOut} && RetryFits(retry, row, now))
      && (verdict == DeadLettered <==>
            Holds(row, claim, now) && outcome in {Refused(false), TimedOut} && !RetryFits(retry, row, now))
      && (verdict == RetryScheduled ==>
            after.nextAttempt == Some(now + retry.delay) && !Claimable(after, now + retry.delay - 1))
      && (verdict == Success ==> after.attempts == row.attempts)
      && (verdict in {RetryScheduled, FailedForGood, DeadLettered} ==> after.attempts == row.attempts + 1)
      && (verdict == RetryScheduled ==> after.status == Waiting)
      && (verdict == FailedForGood ==> after.status == Failed)
      && (verdict == DeadLettered ==> after.status == DeadLetter)
      && (verdict in {Success, FailedForGood, DeadLettered} ==> after.nextAttempt.None?)
  {
  }

  function Ids(claims: seq<Claim>): set<Id> {
    set c | c in claims :: c.id
  }

  lemma IdsAppend(claims: seq<Claim>, claim: Claim)
    ensures Ids(claims + [claim]) == Ids(claims) + {claim.id}
  {
    assert claim in claims + [claim];
    forall id | id in Ids(claims) ensures id in Ids(claims + [claim]) {
      var c :| c in claims && c.id == id;
      assert c in claims + [claim];
    }
  }

  /** The table after the rows in `taken` were claimed. */
  function AfterClaims(rows: map<Id, Row>, taken: set<Id>, owner: string, lease: nat, now: Time): map<Id, Row> {
    map id | id in rows :: if id in taken then ClaimRow(rows[id], owner, lease, now) else rows[id]
  }

  /** `claim` is what the statement hands out for its row of `rows`. */
  predicate Grants(rows: map<Id, Row>, claim: Claim, owner: string, lease: nat, now: Time) {
    && claim.id in rows && Claimable(rows[claim.id], now)
    && claim == ClaimOf(claim.id, owner, rows[claim.id], lease, now)
  }

  lemma AfterOneMore(rows: map<Id, Row>, taken: set<Id>, id: Id, owner: string, lease: nat, now: Time)
    requires id in rows && id !in taken
    ensures AfterClaims(rows, taken, owner, lease, now)[id] == rows[id]
    ensures AfterClaims(rows, taken + {id}, owner, lease, now)
         == AfterClaims(rows, taken, owner, lease, now)[id := ClaimRow(rows[id], owner, lease, now)]
  {
  }

  /** `claims` are what the statement hands out for the rows `taken` of `rows`, each once. */
  ghost predicate Granted(rows: map<Id, Row>, candidates: seq<Id>, claims: seq<Claim>, taken: set<Id>,
                          owner: string, lease: nat, now: Time) {
    && |claims| == |taken| && taken == Ids(claims)
    && forall i :: 0 <= i < |claims| ==> claims[i].id in candidates && Grants(rows, claims[i], owner, lease, now)
  }

  /** `taken` are the claimable ones among the first `n` candidates. */
  ghost predicate TakenFirst(rows: map<Id, Row>, candidates: seq<Id>, taken: set<Id>, now: Time, n: nat) {
    n <= |candidates| && forall id :: id in taken <==> id in candidates[..n] && id in rows && Claimable(rows[id], now)
  }

  lemma GrantOneMore(rows: map<Id, Row>, candidates: seq<Id>, claims: seq<Claim>, taken: set<Id>, id: Id,
                     owner: string, lease: nat, now: Time)
    requires Granted(rows, candidates, claims, taken, owner, lease, now)
    requires id in candidates && id in rows && id !in taken && Claimable(rows[id], now)
    ensures Granted(rows, candidates, claims + [ClaimOf(id, owner, rows[id], lease, now)], taken + {id}, owner, lease, now)
  {
    IdsAppend(claims, ClaimOf(id, owner, rows[id], lease, now));
  }

  /** What claiming makes of a row: a new holder, generation and lease; its history is kept. */
  predicate ClaimedFrom(before: Row, after: Row, owner: string, lease: nat, now: Time) {
    && after.status == Claimed && after.owner == Some(owner) && after.generation == before.generation + 1
    && after.expiresAt == Some(now + lease) && after.nextAttempt.None?
    && after.attempts == before.attempts && after.createdAt == before.createdAt
    && after.deadline == before.deadline && after.removed == before.removed
  }

  /** The claim a worker gets names the row as it is now. */
  predicate Names(claim: Claim, row: Row) {
    && row.owner == Some(claim.owner) && row.expiresAt == Some(claim.expiresAt)
    && row.generation == claim.generation && row.attempts == claim.attempts
  }

  /** The rows `taken` are claimed, each under one of `claims`, and the others are as they were. */
  ghost predicate ClaimsApplied(before: map<Id, Row>, after: map<Id, Row>, claims: seq<Claim>, taken: set<Id>,
                                owner: string, lease: nat, now: Time) {
    && after.Keys == before.Keys && |claims| == |taken| <= |before|
    && (forall id :: id in taken ==>
          id in before && Claimable(before[id], now) && ClaimedFrom(before[id], after[id], owner, lease, now))
    && (forall id :: id in before && id !in taken ==> after[id] == before[id])
    && (forall i :: 0 <= i < |claims| ==> claims[i].id in taken && Names(claims[i], after[claims[i].id]))
    && (forall i, j :: 0 <= i < j < |claims| ==> claims[i].id != claims[j].id)
  }

  lemma IdsBound(claims: seq<Claim>)
    ensures |Ids(claims)| <= |claims|
    ensures |Ids(claims)| == |claims| ==> forall i, j :: 0 <= i < j < |claims| ==> claims[i].id != claims[j].id
  {
    if claims != [] {
      var front, last := claims[..|claims| - 1], claims[|claims| - 1];
      assert claims == front + [last];
      IdsBound(front);
      IdsAppend(front, last);
      if |Ids(claims)| == |claims| {
        forall i | 0 <= i < |front| ensures claims[i].id != last.id {
          assert front[i] in front;
        }
      }
    }
  }

  lemma SubsetIsSmaller(a: set<Id>, b: set<Id>)
    requires a <= b
    ensures |a| <= |b|
  {
    assert b == a + (b - a);
  }

  lemma GrantedIsApplied(rows: map<Id, Row>, candidates: seq<Id>, claims: seq<Claim>, taken: set<Id>,
                         owner: string, lease: nat, now: Time)
    requires Granted(rows, candidates, claims, taken, owner, lease, now)
    ensures ClaimsApplied(rows, AfterClaims(rows, taken, owner, lease, now), claims, taken, owner, lease, now)
  {
    IdsBound(claims);
    forall id | id in taken ensures id in rows && Claimable(rows[id], now) {
      var c :| c in claims && c.id == id;
    }
    SubsetIsSmaller(taken, rows.Keys);
    forall i | 0 <= i < |claims| ensures claims[i].id in taken {
      assert claims[i] in claims;
    }
  }

  /** The rows the claiming statement takes, in its order, and the table it leaves. */
  method TakeClaims(rows: map<Id, Row>, owner: string, batchSize: nat, lease: nat, now: Time, candidates: seq<Id>)
    returns (claims: seq<Claim>, taken: set<Id>, after: map<Id, Row>)
    ensures Granted(rows, candidates, claims, taken, owner, lease, now) && |claims| <= batchSize
    ensures after == AfterClaims(rows, taken, owner, lease, now)
    ensures ClaimsApplied(rows, after, claims, taken, owner, lease, now)
    ensures exists n :: TakenFirst(rows, candidates, taken, now, n) && (|claims| < batchSize ==> n == |candidates|)
  {
    claims, taken, after := [], {}, rows;
    var i := 0;
    while i < |candidates| && |claims| < batchSize
      invariant 0 <= i <= |candidates| && |claims| <= batchSize
      invariant Granted(rows, candidates, claims, taken, owner, lease, now)
      invariant after == AfterClaims(rows, taken, owner, lease, now)
      invariant TakenFirst(rows, candidates, taken, now, i)
    {
      var id := candidates[i];
      assert candidates[..i + 1] == candidates[..i] + [id];
      if id in after && id !in taken && Claimable(after[id], now) {
        AfterOneMore(rows, taken, id, owner, lease, now);
        GrantOneMore(rows, candidates, claims, taken, id, owner, lease, now);
        claims, taken := claims + [ClaimOf(id, owner, after[id], lease, now)], taken + {id};
        after := after[id := ClaimRow(after[id], owner, lease, now)];
      }
      i := i + 1;
    }
    GrantedIsApplied(rows, candidates, claims, taken, owner, lease, now);
  }

  class Queue {
    var rows: map<Id, Row>

    constructor ()
      ensures rows == map[]
    {
      rows := map[];
    }

    /**
     The claiming statement. `candidates` lists the unlocked rows in the statement's order;
     it takes the first `batchSize` of them that are claimable.
     */
    method ClaimBatch(owner: string, batchSize: nat, lease: nat, now: Time, candidates: seq<Id>)
      returns (claims: seq<Claim>, taken: set<Id>)
      modifies this
      ensures Granted(old(rows), candidates, claims, taken, owner, lease, now) && |claims| <= batchSize
      ensures rows == AfterClaims(old(rows), taken, owner, lease, now)
      ensures ClaimsApplied(old(rows), rows, claims, taken, owner, lease, now)
      ensures exists n ::
        TakenFirst(old(rows), candidates, taken, now, n) && (|claims| < batchSize ==> n == |candidates|)
    {
      claims, taken, rows := TakeClaims(rows, owner, batchSize, lease, now, candidates);
    }

    /** `mark_published`, `mark_object_deleted` and `mark_delivery_succeeded`. */
    method MarkDone(claim: Claim, now: Time) returns (applied: bool)
      modifies this
      ensures applied <==> claim.id in old(rows) && Holds(old(rows)[claim.id], claim, now)
      ensures rows == if applied then old(rows)[claim.id := Completed(old(rows)[claim.id])] else old(rows)
    {
      applied := claim.id in rows && Holds(rows[claim.id], claim, now);
      if applied {
        rows := rows[claim.id := Completed(rows[claim.id])];
      }
    }

    /** `record_failure` and its object-cleanup and push counterparts. */
    method RecordFailure(retry: Retry, claim: Claim, permanent: bool, now: Time) returns (verdict: Verdict)
      modifies this
      ensures
        if claim.id in old(rows) && Holds(old(rows)[claim.id], claim, now) then
          var after := AfterFailure(retry, old(rows)[claim.id], permanent, now);
          verdict == VerdictOf(after) && rows == old(rows)[claim.id := after]
        else
          verdict == StaleClaim && rows == old(rows)
    {
      if claim.id !in rows || !Holds(rows[claim.id], claim, now) {
        return StaleClaim;
      }
      var after := AfterFailure(retry, rows[claim.id], permanent, now);
      rows := rows[claim.id := after];
      verdict := VerdictOf(after);
    }

    /** The settling half of a worker's `process_claim`: the provider call has ended. */
    method ProcessClaim(retry: Retry, claim: Claim, outcome: Outcome, now: Time) returns (verdict: Verdict)
      requires claim.id in rows
      modifies this
      ensures rows == old(rows)[claim.id := Settled(retry, old(rows)[claim.id], claim, outcome, now).0]
      ensures verdict == Settled(retry, old(rows)[claim.id], claim, outcome, now).1
    {
      match outcome {
        case Delivered =>
          var applied := MarkDone(claim, now);
          verdict := if applied then Success else StaleClaim;
        case Refused(permanent) =>
          verdict := RecordFailure(retry, claim, permanent, now);
        case TimedOut =>
          verdict := RecordFailure(retry, claim, false, now);
      }
    }
  }

  // ---------------------------------------------------------------------------------------
  // Any number of workers
  // ---------------------------------------------------------------------------------------

  /** A claim in a worker's hands: claimed, calling the provider, recording, reported. */
  datatype Task =
    | Ready(claim: Claim, since: Time)
    | InFlight(claim: Claim, started: Time)
    | Settling(claim: Claim, outcome: Outcome)
    | Reported(claim: Claim, verdict: Verdict)

  /** A claim is identified by its row and generation. */
  type Key = (Id, nat)

  /** `delivered` records the claims whose provider call returned success. */
  datatype State = State(now: Time, rows: map<Id, Row>, tasks: map<Key, Task>, delivered: set<Key>)

  /** What becomes of a repository call: answered, lost before, or lost after taking effect. */
  datatype Reply = Answered | LostBefore | LostAfter

  datatype Step =
    | Tick(d: nat)
    | Enqueue(id: Id, createdAt: Time, deadline: Option<Time>)
    | Take(id: Id, owner: string)
    | Start(key: Key)
    | Return(key: Key, outcome: Outcome)
    | Settle(key: Key, retry: Retry, reply: Reply)
    | Crash(key: Key)
    | Stop(id: Id)
    | Remove(id: Id)

  function Fresh(createdAt: Time, deadline: Option<Time>): Row {
    Row(Waiting, None, 0, None, 0, createdAt, None, deadline, false)
  }

  /** A provider call is cancelled at its timeout, so time cannot pass beyond it. */
  predicate Enabled(cfg: Config, s: State, step: Step) {
    match step
    case Tick(d) =>
      forall k :: k in s.tasks && s.tasks[k].InFlight? ==> s.now + d <= s.tasks[k].started + cfg.timeout
    case Enqueue(id, _, _) => id !in s.rows
    case Take(id, _) => id in s.rows && Claimable(s.rows[id], s.now)
    case Start(k) => k in s.tasks && s.tasks[k].Ready?
    case Return(k, outcome) => k in s.tasks && s.tasks[k].InFlight?
    case Settle(k, retry, _) =>
      k in s.tasks && s.tasks[k].Settling? && k.0 in s.rows && retry.limit <= cfg.retry.limit
    case Crash(k) => k in s.tasks
    case Stop(id) => id in s.rows && !Terminal(s.rows[id]) && !s.rows[id].removed
    case Remove(id) => id in s.rows
  }

  function Apply(cfg: Config, s: State, step: Step): State
    requires Enabled(cfg, s, step)
  {
    match step
    case Tick(d) => s.(now := s.now + d)
    case Enqueue(id, createdAt, deadline) => s.(rows := s.rows[id := Fresh(createdAt, deadline)])
    case Take(id, owner) =>
      var claim := ClaimOf(id, owner, s.rows[id], cfg.lease, s.now);
      s.(rows := s.rows[id := ClaimRow(s.rows[id], owner, cfg.lease, s.now)],
         tasks := s.tasks[(id, claim.generation) := Ready(claim, s.now)])
    case Start(k) => s.(tasks := s.tasks[k := InFlight(s.tasks[k].claim, s.now)])
    case Return(k, outcome) =>
      s.(tasks := s.tasks[k := Settling(s.tasks[k].claim, outcome)],
         delivered := if outcome.Delivered? then s.delivered + {k} else s.delivered)
    case Settle(k, retry, reply) =>
      var task := s.tasks[k];
      var (row, verdict) := Settled(retry, s.rows[k.0], task.claim, task.outcome, s.now);
      s.(rows := if reply.LostBefore? then s.rows else s.rows[k.0 := row],
         tasks := s.tasks[k := Reported(task.claim, if reply.Answered? then verdict else Unavailable)])
    case Crash(k) => s.(tasks := s.tasks - {k})
    case Stop(id) => s.(rows := s.rows[id := Stopped(s.rows[id])])
    case Remove(id) => s.(rows := s.rows[id := s.rows[id].(removed := true)])
  }

  /** The provider call starts within the safety margin of its claim. */
  predicate Prompt(cfg: Config, s: State, step: Step) {
    step.Start? && step.key in s.tasks && s.tasks[step.key].Ready? ==>
      s.now <= s.tasks[step.key].since + cfg.margin
  }

  predicate Initial(s: State) {
    s.rows == map[] && s.tasks == map[] && s.delivered == {}
  }

  /** `steps` leads from `s` to `t`; if `prompt`, every start in it is prompt. */
  ghost predicate Runs(cfg: Config, prompt: bool, s: State, steps: seq<Step>, t: State)
    decreases |steps|
  {
    if steps == [] then s == t
    else
      && Enabled(cfg, s, steps[0])
      && (prompt ==> Prompt(cfg, s, steps[0]))
      && Runs(cfg, prompt, Apply(cfg, s, steps[0]), steps[1..], t)
  }

  ghost predicate Reachable(cfg: Config, prompt: bool, t: State) {
    exists s, steps :: Initial(s) && Runs(cfg, prompt, s, steps, t)
  }

  /** No two provider calls for one row are in flight. */
  ghost predicate Exclusive(s: State) {
    forall k, m :: k in s.tasks && m in s.tasks && s.tasks[k].InFlight? && s.tasks[m].InFlight? && k.0 == m.0
      ==> k == m
  }

  /** The lease arithmetic of the three `validate` functions. */
  predicate BudgetFits(cfg: Config) {
    cfg.lease > cfg.timeout + cfg.margin
  }

  // ---------------------------------------------------------------------------------------
  // What every step keeps
  // ---------------------------------------------------------------------------------------

  predicate RowOk(cfg: Config, id: Id, row: Row, delivered: set<Key>) {
    && (row.status == Claimed <==> row.owner.Some?)
    && (row.status == Claimed <==> row.expiresAt.Some?)
    && (row.status == Done ==> (id, row.generation) in delivered)
    // each generation accounts for at most one recorded failure
    && row.attempts + (if row.status in {Claimed, Done} then 1 else 0) <= row.generation
    && row.attempts <= cfg.retry.limit
    && (row.status in {Waiting, Claimed, Done} ==> row.attempts < cfg.retry.limit)
    // a scheduled retry comes before the deadline
    && (row.nextAttempt.Some? ==> row.status == Waiting || row.removed)
    && (row.nextAttempt.Some? && row.deadline.Some? ==> row.nextAttempt.value < row.deadline.value)
  }

  /** The claim names its row, and an unsettled one is current until its lease has run out. */
  predicate TaskOk(cfg: Config, prompt: bool, s: State, k: Key, task: Task) {
    && k.0 in s.rows
    && task.claim.id == k.0 && task.claim.generation == k.1 && k.1 <= s.rows[k.0].generation
    && (k.1 == s.rows[k.0].generation && s.rows[k.0].status == Claimed
        ==> s.rows[k.0].owner == Some(task.claim.owner) && s.rows[k.0].expiresAt == Some(task.claim.expiresAt))
    && (!task.Reported? ==>
          || (k.1 == s.rows[k.0].generation && (s.rows[k.0].status == Claimed || s.rows[k.0].removed))
          || task.claim.expiresAt <= s.now)
    && (task.Ready? ==> task.since <= s.now && task.claim.expiresAt == task.since + cfg.lease)
    && (task.InFlight? ==> s.now <= task.started + cfg.timeout)
    && (task.InFlight? && prompt && BudgetFits(cfg) ==> task.started + cfg.timeout < task.claim.expiresAt)
    && (task.Settling? && task.outcome.Delivered? ==> k in s.delivered)
  }

  ghost predicate Inv(cfg: Config, prompt: bool, s: State) {
    && cfg.retry.limit > 0
    && (forall id :: id in s.rows ==> RowOk(cfg, id, s.rows[id], s.delivered))
    && (forall k :: k in s.tasks ==> TaskOk(cfg, prompt, s, k, s.tasks[k]))
  }

  lemma TakeKeepsInv(cfg: Config, prompt: bool, s: State, id: Id, owner: string)
    requires Inv(cfg, prompt, s) && Enabled(cfg, s, Take(id, owner))
    ensures Inv(cfg, prompt, Apply(cfg, s, Take(id, owner)))
  {
    var t := Apply(cfg, s, Take(id, owner));
    forall k | k in t.tasks ensures TaskOk(cfg, prompt, t, k, t.tasks[k]) {
      if k != (id, s.rows[id].generation + 1) {
        assert TaskOk(cfg, prompt, s, k, s.tasks[k]);
      }
    }
  }

  lemma SettleKeepsInv(cfg: Config, prompt: bool, s: State, key: Key, retry: Retry, reply: Reply)
    requires Inv(cfg, prompt, s) && Enabled(cfg, s, Settle(key, retry, reply))
    ensures Inv(cfg, prompt, Apply(cfg, s, Settle(key, retry, reply)))
  {
    var t := Apply(cfg, s, Settle(key, retry, reply));
    assert TaskOk(cfg, prompt, s, key, s.tasks[key]);
    assert RowOk(cfg, key.0, s.rows[key.0], s.delivered);
    forall k | k in t.tasks ensures TaskOk(cfg, prompt, t, k, t.tasks[k]) {
      assert TaskOk(cfg, prompt, s, k, s.tasks[k]);
    }
  }

  lemma RowStepKeepsInv(cfg: Config, prompt: bool, s: State, step: Step)
    requires Inv(cfg, prompt, s) && Enabled(cfg, s, step) && (step.Enqueue? || step.Stop? || step.Remove?)
    ensures Inv(cfg, prompt, Apply(cfg, s, step))
  {
    var t := Apply(cfg, s, step);
    forall k | k in t.tasks ensures TaskOk(cfg, prompt, t, k, t.tasks[k]) {
      assert TaskOk(cfg, prompt, s, k, s.tasks[k]);
    }
    forall id | id in t.rows ensures RowOk(cfg, id, t.rows[id], t.delivered) {
      assert id in s.rows ==> RowOk(cfg, id, s.rows[id], s.delivered);
    }
  }

  lemma TaskStepKeepsInv(cfg: Config, prompt: bool, s: State, step: Step)
    requires Inv(cfg, prompt, s) && Enabled(cfg, s, step) && (prompt ==> Prompt(cfg, s, step))
    requires step.Tick? || step.Start? || step.Return? || step.Crash?
    ensures Inv(cfg, prompt, Apply(cfg, s, step))
  {
    var t := Apply(cfg, s, step);
    forall k | k in t.tasks ensures TaskOk(cfg, prompt, t, k, t.tasks[k]) {
      assert TaskOk(cfg, prompt, s, k, s.tasks[k]);
    }
    forall id | id in t.rows ensures RowOk(cfg, id, t.rows[id], t.delivered) {
      assert RowOk(cfg, id, s.rows[id], s.delivered);
    }
  }

  /** Every step of every worker keeps the invariant. */
  lemma StepKeepsInv(cfg: Config, prompt: bool, s: State, step: Step)
    requires Inv(cfg, prompt, s) && Enabled(cfg, s, step) && (prompt ==> Prompt(cfg, s, step))
    ensures Inv(cfg, prompt, Apply(cfg, s, step))
  {
    match step {
      case Take(id, owner) => TakeKeepsInv(cfg, prompt, s, id, owner);
      case Settle(k, retry, reply) => SettleKeepsInv(cfg, prompt, s, k, retry, reply);
      case Enqueue(_, _, _) => RowStepKeepsInv(cfg, prompt, s, step);
      case Stop(_) => RowStepKeepsInv(cfg, prompt, s, step);
      case Remove(_) => RowStepKeepsInv(cfg, prompt, s, step);
      case _ => TaskStepKeepsInv(cfg, prompt, s, step);
    }
  }

  lemma {:induction false} RunKeepsInv(cfg: Config, prompt: bool, s: State, steps: seq<Step>, t: State)
    requires Inv(cfg, prompt, s) && Runs(cfg, prompt, s, steps, t)
    ensures Inv(cfg, prompt, t)
    decreases |steps|
  {
    if steps != [] {
      StepKeepsInv(cfg, prompt, s, steps[0]);
      RunKeepsInv(cfg, prompt, Apply(cfg, s, steps[0]), steps[1..], t);
    }
  }

  lemma InvExcludes(cfg: Config, s: State)
    requires Inv(cfg, true, s) && BudgetFits(cfg)
    ensures Exclusive(s)
  {
    forall k, m | k in s.tasks && m in s.tasks && s.tasks[k].InFlight? && s.tasks[m].InFlight? && k.0 == m.0
      ensures k == m
    {
      assert TaskOk(cfg, true, s, k, s.tasks[k]) && TaskOk(cfg, true, s, m, s.tasks[m]);
      assert k.1 == s.rows[k.0].generation == m.1;
    }
  }

  // ---------------------------------------------------------------------------------------
  // Lease exclusion
  // ---------------------------------------------------------------------------------------

  lemma ReachableKeepsInv(cfg: Config, prompt: bool, t: State)
    requires cfg.retry.limit > 0 && Reachable(cfg, prompt, t)
    ensures Inv(cfg, prompt, t)
  {
    var s, steps :| Initial(s) && Runs(cfg, prompt, s, steps, t);
    RunKeepsInv(cfg, prompt, s, steps, t);
  }

  lemma RunsStep(cfg: Config, prompt: bool, s: State, step: Step, steps: seq<Step>, t: State)
    requires Enabled(cfg, s, step) && (prompt ==> Prompt(cfg, s, step))
    requires Runs(cfg, prompt, Apply(cfg, s, step), steps, t)
    ensures Runs(cfg, prompt, s, [step] + steps, t)
  {
    assert ([step] + steps)[1..] == steps;
  }

  /** Without the budget a second worker can take the row while the first call is running. */
  lemma OverlapWithoutBudget(cfg: Config) returns (steps: seq<Step>, t: State)
    requires !BudgetFits(cfg)
    ensures Runs(cfg, true, State(0, map[], map[], {}), steps, t) && !Exclusive(t)
  {
    var wait := if cfg.margin <= cfg.lease then cfg.margin else cfg.lease;
    var s0 := State(0, map[], map[], {});
    var a, b: Key := (0, 1), (0, 2);
    var s1 := Apply(cfg, s0, Enqueue(0, 0, None));
    var s2 := Apply(cfg, s1, Take(0, "a"));
    var s3 := Apply(cfg, s2, Tick(wait));
    var s4 := Apply(cfg, s3, Start(a));
    var s5 := Apply(cfg, s4, Tick(cfg.lease - wait));
    var s6 := Apply(cfg, s5, Take(0, "b"));
    t := Apply(cfg, s6, Start(b));
    assert t.tasks[a].InFlight? && t.tasks[b].InFlight? && a.0 == b.0 && a != b;
    steps := [];
    RunsStep(cfg, true, s6, Start(b), steps, t);
    steps := [Start(b)] + steps;
    RunsStep(cfg, true, s5, Take(0, "b"), steps, t);
    steps := [Take(0, "b")] + steps;
    RunsStep(cfg, true, s4, Tick(cfg.lease - wait), steps, t);
    steps := [Tick(cfg.lease - wait)] + steps;
    RunsStep(cfg, true, s3, Start(a), steps, t);
    steps := [Start(a)] + steps;
    RunsStep(cfg, true, s2, Tick(wait), steps, t);
    steps := [Tick(wait)] + steps;
    RunsStep(cfg, true, s1, Take(0, "a"), steps, t);
    steps := [Take(0, "a")] + steps;
    RunsStep(cfg, true, s0, Enqueue(0, 0, None), steps, t);
    steps := [Enqueue(0, 0, None)] + steps;
  }

  /**
   The inequality that `validate` enforces is exactly what lease exclusion needs: with it, no
   two calls for one row overlap in any run of prompt starts; without it, some run overlaps.
   */
  lemma BudgetIsExact(cfg: Config)
    requires cfg.retry.limit > 0
    ensures BudgetFits(cfg) <==> forall t :: Reachable(cfg, true, t) ==> Exclusive(t)
  {
    if BudgetFits(cfg) {
      forall t | Reachable(cfg, true, t) ensures Exclusive(t) {
        ReachableKeepsInv(cfg, true, t);
        InvExcludes(cfg, t);
      }
    } else {
      var steps, t := OverlapWithoutBudget(cfg);
      var s := State(0, map[], map[], {});
      assert Initial(s) && Runs(cfg, true, s, steps, t);
      assert Reachable(cfg, true, t);
    }
  }

  // ---------------------------------------------------------------------------------------
  // Generation fencing
  // ---------------------------------------------------------------------------------------

  /** The row as it was, unless it was removed meanwhile. */
  function UnlessRemoved(row: Row, steps: seq<Step>, id: Id): Row {
    row.(removed := row.removed || Remove(id) in steps)
  }

  /** Only the holder of the current generation, within its lease, finishes or reschedules a row. */
  lemma OnlyTheHolderSettles(cfg: Config, prompt: bool, s: State, step: Step, id: Id)
    requires Inv(cfg, prompt, s) && Enabled(cfg, s, step) && id in s.rows
    ensures id in Apply(cfg, s, step).rows
    ensures Apply(cfg, s, step).rows[id] != s.rows[id] ==>
      || (step == Stop(id) && !Terminal(s.rows[id]) && Apply(cfg, s, step).rows[id] == Stopped(s.rows[id]))
      || (step == Remove(id) && Apply(cfg, s, step).rows[id] == s.rows[id].(removed := true))
      || (step.Take? && step.id == id && Apply(cfg, s, step).rows[id].generation == s.rows[id].generation + 1)
      || (step.Settle? && step.key == (id, s.rows[id].generation) && !step.reply.LostBefore?
          && s.rows[id].status == Claimed && !s.rows[id].removed && s.tasks[step.key].claim.expiresAt > s.now
          && s.rows[id].owner == Some(s.tasks[step.key].claim.owner))
  {
    if step.Settle? {
      assert TaskOk(cfg, prompt, s, step.key, s.tasks[step.key]);
    }
  }

  lemma {:induction false} TerminalRowsNeverChange(
      cfg: Config, prompt: bool, s: State, steps: seq<Step>, t: State, id: Id)
    requires Runs(cfg, prompt, s, steps, t) && id in s.rows && Terminal(s.rows[id])
    ensures id in t.rows && t.rows[id] == UnlessRemoved(s.rows[id], steps, id)
    decreases |steps|
  {
    if steps != [] {
      assert steps == [steps[0]] + steps[1..];
      TerminalRowsNeverChange(cfg, prompt, Apply(cfg, s, steps[0]), steps[1..], t, id);
    }
  }

  /** A removed row is never claimed, finished or rescheduled again. */
  lemma {:induction false} RemovedRowsNeverChange(
      cfg: Config, prompt: bool, s: State, steps: seq<Step>, t: State, id: Id)
    requires Runs(cfg, prompt, s, steps, t) && id in s.rows && s.rows[id].removed
    ensures id in t.rows && t.rows[id] == s.rows[id]
    decreases |steps|
  {
    if steps != [] {
      RemovedRowsNeverChange(cfg, prompt, Apply(cfg, s, steps[0]), steps[1..], t, id);
    }
  }

  lemma {:induction false} TimeOnlyAdvances(cfg: Config, prompt: bool, s: State, steps: seq<Step>, t: State)
    requires Runs(cfg, prompt, s, steps, t)
    ensures s.now <= t.now
    decreases |steps|
  {
    if steps != [] {
      TimeOnlyAdvances(cfg, prompt, Apply(cfg, s, steps[0]), steps[1..], t);
    }
  }

  /** A row scheduled for a retry is left alone, by every worker in every run, until the retry is due, unless it is removed. */
  lemma {:induction false} ScheduledRowWaits(
      cfg: Config, prompt: bool, s: State, steps: seq<Step>, t: State, id: Id)
    requires Inv(cfg, prompt, s) && Runs(cfg, prompt, s, steps, t) && id in s.rows
    requires s.rows[id].status == Waiting && s.rows[id].nextAttempt.Some? && t.now < s.rows[id].nextAttempt.value
    ensures id in t.rows && t.rows[id].generation == s.rows[id].generation && t.rows[id].attempts == s.rows[id].attempts
    ensures t.rows[id] == s.rows[id] || (t.rows[id].removed && (Stop(id) in steps || Remove(id) in steps))
    decreases |steps|
  {
    TimeOnlyAdvances(cfg, prompt, s, steps, t);
    if steps != [] {
      assert steps == [steps[0]] + steps[1..];
      StepKeepsInv(cfg, prompt, s, steps[0]);
      OnlyTheHolderSettles(cfg, prompt, s, steps[0], id);
      if Apply(cfg, s, steps[0]).rows[id].removed {
        RemovedRowsNeverChange(cfg, prompt, Apply(cfg, s, steps[0]), steps[1..], t, id);
      } else {
        ScheduledRowWaits(cfg, prompt, Apply(cfg, s, steps[0]), steps[1..], t, id);
      }
    }
  }

  /** A claim whose row has moved on to a later generation or was removed. */
  predicate Overtaken(s: State, k: Key) {
    && k.0 in s.rows && (k.1 < s.rows[k.0].generation || s.rows[k.0].removed)
    && (k in s.tasks ==>
          && s.tasks[k].claim.generation == k.1
          && (s.tasks[k].Reported? ==> s.tasks[k].verdict in {StaleClaim, Unavailable}))
  }

  /** From then on the worker holding it changes no row and reports a stale claim or an error. */
  lemma {:induction false} OvertakenOnlyReportsStale(
      cfg: Config, prompt: bool, s: State, steps: seq<Step>, t: State, k: Key)
    requires Runs(cfg, prompt, s, steps, t) && Overtaken(s, k)
    ensures Overtaken(t, k)
    decreases |steps|
  {
    if steps != [] {
      var u := Apply(cfg, s, steps[0]);
      assert Overtaken(u, k) by {
        assert u.rows[k.0].generation >= s.rows[k.0].generation;
      }
      OvertakenOnlyReportsStale(cfg, prompt, u, steps[1..], t, k);
    }
  }

  /** The step settles a claim on row `id` in time: the lease has not run out, and the row is there. */
  predicate Lands(s: State, step: Step, id: Id) {
    && step.Settle? && step.key.0 == id && !step.reply.LostBefore?
    && step.key in s.tasks && s.tasks[step.key].Settling? && s.now < s.tasks[step.key].claim.expiresAt
    && id in s.rows && !s.rows[id].removed
  }

  /** A worker that settles in time still holds its row, so its outcome is what is recorded. */
  lemma InTimeSettles(cfg: Config, prompt: bool, s: State, step: Step, id: Id)
    requires Inv(cfg, prompt, s) && Enabled(cfg, s, step) && Lands(s, step, id)
    ensures s.rows[id].status == Claimed && s.rows[id].owner == Some(s.tasks[step.key].claim.owner)
    ensures var t, outcome := Apply(cfg, s, step), s.tasks[step.key].outcome;
      && id in t.rows && t.rows[id].generation == step.key.1 && t.rows[id].owner.None?
      && t.rows[id].attempts == s.rows[id].attempts + (if outcome == Delivered then 0 else 1)
      && (t.rows[id].status == Done <==> outcome == Delivered)
      && (t.rows[id].status == Failed <==> outcome == Refused(true))
      && (t.rows[id].status == Waiting <==>
            && outcome in {Refused(false), TimedOut} && s.rows[id].attempts + 1 < step.retry.limit
            && (s.rows[id].deadline.Some? ==> s.now + step.retry.delay < s.rows[id].deadline.value))
      && (t.rows[id].status == Waiting ==> t.rows[id].nextAttempt == Some(s.now + step.retry.delay))
      && (step.reply.Answered? ==> t.tasks[step.key] == Reported(s.tasks[step.key].claim, VerdictOf(t.rows[id])))
  {
    assert TaskOk(cfg, prompt, s, step.key, s.tasks[step.key]);
    assert RowOk(cfg, id, s.rows[id], s.delivered);
    VerdictsAreExact(step.retry, s.rows[id], s.tasks[step.key].claim, s.tasks[step.key].outcome, s.now);
  }

  /** The step records a failure of row `id`. */
  predicate Fails(s: State, step: Step, id: Id) {
    Lands(s, step, id) && s.tasks[step.key].outcome != Delivered
  }

  /** How many failures of row `id` the run records. */
  ghost function Failures(cfg: Config, s: State, steps: seq<Step>, id: Id): nat
    decreases |steps|
  {
    if steps == [] || !Enabled(cfg, s, steps[0]) then 0
    else (if Fails(s, steps[0], id) then 1 else 0) + Failures(cfg, Apply(cfg, s, steps[0]), steps[1..], id)
  }

  /** How many claims of row `id` the run grants. */
  function ClaimCount(steps: seq<Step>, id: Id): nat {
    if steps == [] then 0
    else (if steps[0].Take? && steps[0].id == id then 1 else 0) + ClaimCount(steps[1..], id)
  }

  lemma StepCounts(cfg: Config, prompt: bool, s: State, step: Step, id: Id)
    requires Inv(cfg, prompt, s) && Enabled(cfg, s, step) && id in s.rows
    ensures var row, after := s.rows[id], Apply(cfg, s, step).rows;
      && id in after
      && after[id].attempts == row.attempts + (if Fails(s, step, id) then 1 else 0)
      && after[id].generation == row.generation + (if step.Take? && step.id == id then 1 else 0)
      && after[id].createdAt == row.createdAt && after[id].deadline == row.deadline
  {
    if Lands(s, step, id) {
      InTimeSettles(cfg, prompt, s, step, id);
    }
    if step.Settle? {
      assert TaskOk(cfg, prompt, s, step.key, s.tasks[step.key]);
    }
  }

  /**
   Over every run: a row has as many attempts as failures of it were recorded, as many generations as
   claims of it were granted, and keeps its creation time and deadline.
   */
  lemma {:induction false} AttemptsCountFailures(
      cfg: Config, prompt: bool, s: State, steps: seq<Step>, t: State, id: Id)
    requires Inv(cfg, prompt, s) && Runs(cfg, prompt, s, steps, t) && id in s.rows
    ensures id in t.rows && t.rows[id].attempts == s.rows[id].attempts + Failures(cfg, s, steps, id)
    ensures t.rows[id].generation == s.rows[id].generation + ClaimCount(steps, id)
    ensures t.rows[id].createdAt == s.rows[id].createdAt && t.rows[id].deadline == s.rows[id].deadline
    decreases |steps|
  {
    if steps != [] {
      StepKeepsInv(cfg, prompt, s, steps[0]);
      StepCounts(cfg, prompt, s, steps[0], id);
      AttemptsCountFailures(cfg, prompt, Apply(cfg, s, steps[0]), steps[1..], t, id);
    }
  }

  /** Every failure of row `id` that the run records comes with a limit from `low` to `high`. */
  ghost predicate LimitedTo(cfg: Config, s: State, steps: seq<Step>, id: Id, low: nat, high: nat)
    decreases |steps|
  {
    steps != [] && Enabled(cfg, s, steps[0]) ==>
      && (Fails(s, steps[0], id) ==> low <= steps[0].retry.limit <= high)
      && LimitedTo(cfg, Apply(cfg, s, steps[0]), steps[1..], id, low, high)
  }

  /** A row that has not failed for good has an attempt left; one that was given up without a deadline had used up its own. */
  predicate WithinLimits(row: Row, low: nat, high: nat) {
    && row.attempts <= high && (row.status !in {DeadLetter, Failed} ==> row.attempts < high)
    && (row.status == DeadLetter && row.deadline.None? ==> low <= row.attempts)
  }

  lemma StepKeepsLimits(cfg: Config, prompt: bool, s: State, step: Step, id: Id, low: nat, high: nat)
    requires Inv(cfg, prompt, s) && Enabled(cfg, s, step) && id in s.rows && WithinLimits(s.rows[id], low, high)
    requires Fails(s, step, id) ==> low <= step.retry.limit <= high
    ensures id in Apply(cfg, s, step).rows && WithinLimits(Apply(cfg, s, step).rows[id], low, high)
  {
    StepCounts(cfg, prompt, s, step, id);
    if Lands(s, step, id) {
      InTimeSettles(cfg, prompt, s, step, id);
    }
    if step.Settle? {
      assert TaskOk(cfg, prompt, s, step.key, s.tasks[step.key]);
    }
  }

  lemma {:induction false} RunKeepsLimits(
      cfg: Config, prompt: bool, s: State, steps: seq<Step>, t: State, id: Id, low: nat, high: nat)
    requires Inv(cfg, prompt, s) && Runs(cfg, prompt, s, steps, t) && id in s.rows
    requires LimitedTo(cfg, s, steps, id, low, high) && WithinLimits(s.rows[id], low, high)
    ensures id in t.rows && WithinLimits(t.rows[id], low, high)
    decreases |steps|
  {
    if steps != [] {
      StepKeepsInv(cfg, prompt, s, steps[0]);
      StepKeepsLimits(cfg, prompt, s, steps[0], id, low, high);
      RunKeepsLimits(cfg, prompt, Apply(cfg, s, steps[0]), steps[1..], t, id, low, high);
    }
  }

  /**
   From a row that has not failed yet, in every run: it is given up no later than by as many recorded
   failures as the greatest limit passed, and without a deadline it is not given up before as many as
   the least.
   */
  lemma LimitEndsRow(cfg: Config, prompt: bool, s: State, steps: seq<Step>, t: State, id: Id, low: nat, high: nat)
    requires Inv(cfg, prompt, s) && Runs(cfg, prompt, s, steps, t) && id in s.rows
    requires s.rows[id].attempts == 0 && !Terminal(s.rows[id]) && 0 < high && LimitedTo(cfg, s, steps, id, low, high)
    ensures id in t.rows && Failures(cfg, s, steps, id) <= high
    ensures Failures(cfg, s, steps, id) == high ==> t.rows[id].status in {DeadLetter, Failed}
    ensures t.rows[id].status == DeadLetter && t.rows[id].deadline.None? ==> low <= Failures(cfg, s, steps, id)
  {
    RunKeepsLimits(cfg, prompt, s, steps, t, id, low, high);
    AttemptsCountFailures(cfg, prompt, s, steps, t, id);
  }

  /**
   An unfinished row can be claimed from one moment on and not before:
   when its lease or its wait is over, or it was created.
   */
  lemma UnfinishedRowsComeDue(cfg: Config, id: Id, row: Row, delivered: set<Key>) returns (due: Time)
    requires RowOk(cfg, id, row, delivered) && !Terminal(row) && !row.removed
    ensures forall now :: Claimable(row, now) <==> due <= now
    ensures row.status == Claimed ==> row.expiresAt == Some(due)
    ensures row.status == Waiting && row.nextAttempt.Some? ==> row.nextAttempt == Some(due)
    ensures row.status == Waiting && row.nextAttempt.None? ==> due == row.createdAt
  {
    due := if row.status == Claimed then row.expiresAt.value
           else if row.nextAttempt.Some? then row.nextAttempt.value else row.createdAt;
  }

  /**
   Over every run from an empty queue: a row is done only after a provider call of its last
   generation returned success; failures are counted at most once per claim and never past the
   limit; a row still in play has an attempt left; a scheduled retry comes before the deadline.
   */
  lemma EveryRunIsAccounted(cfg: Config, prompt: bool, t: State, id: Id)
    requires cfg.retry.limit > 0 && Reachable(cfg, prompt, t) && id in t.rows
    ensures t.rows[id].status == Done ==> (id, t.rows[id].generation) in t.delivered
    ensures t.rows[id].attempts <= t.rows[id].generation && t.rows[id].attempts <= cfg.retry.limit
    ensures !Terminal(t.rows[id]) ==> t.rows[id].attempts < cfg.retry.limit
    ensures t.rows[id].nextAttempt.Some? && t.rows[id].deadline.Some? ==>
      t.rows[id].nextAttempt.value < t.rows[id].deadline.value
  {
    ReachableKeepsInv(cfg, prompt, t);
    assert RowOk(cfg, id, t.rows[id], t.delivered);
  }
}
