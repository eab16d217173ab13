/**
 One polling round of the outbox and object-cleanup workers: claim a batch, let every
 provider call end, record every outcome, then add up the report. Which configurations the
 workers accept, and what that acceptance buys.
 */
module QueueWorker {
  import opened Common
  import opened LeaseQueue

  const NANOS_PER_MILLI := 1_000_000
  /** `std::time::Duration::MAX` in nanoseconds. */
  const MAX_DURATION := 0xFFFF_FFFF_FFFF_FFFF * 1_000_000_000 + 999_999_999
  const MAX_CLAIM_OWNER := 128

  /** Durations in nanoseconds; `published` is `succeeded` in the cleanup worker. */
  datatype WorkerConfig = WorkerConfig(
    owner: Bytes, batchSize: nat, lease: nat, timeout: nat, margin: nat,
    retryDelay: nat, pollInterval: nat, maxAttempts: nat)

  datatype Report = Report(
    claimed: nat, published: nat, retries: nat, failed: nat, deadLettered: nat, staleClaims: nat)

  datatype WorkerError = InvalidConfiguration | RepositoryUnavailable

  /** How the environment answers the worker for one claim: the call, when it is recorded, the reply. */
  datatype Call = Call(outcome: Outcome, recordedAt: Time, reply: Reply)

  /** `OutboxWorkerConfig::validate`. */
  function Validate(c: WorkerConfig): Result<(), WorkerError> {
    if c.timeout + c.margin > MAX_DURATION then Err(InvalidConfiguration)
    else if || |c.owner| == 0 || |c.owner| > MAX_CLAIM_OWNER
            || c.batchSize == 0 || c.maxAttempts == 0
            || c.lease <= c.timeout + c.margin
            || c.retryDelay == 0 || c.pollInterval == 0
         then Err(InvalidConfiguration)
    else Ok(())
  }

  /** Which configurations are accepted: each value in its range, and a lease beyond the budget. */
  lemma AcceptedExactly(c: WorkerConfig)
    ensures Validate(c).Ok? <==>
      && 1 <= |c.owner| <= 128 && c.batchSize >= 1 && c.maxAttempts >= 1 && c.retryDelay >= 1 && c.pollInterval >= 1
      && c.timeout + c.margin < c.lease && c.timeout + c.margin <= MAX_DURATION
  {
  }

  /** The repository installs the lease and the retry delay in whole milliseconds. */
  function WholeMillis(d: nat): nat {
    d / NANOS_PER_MILLI * NANOS_PER_MILLI
  }

  function QueueConfig(c: WorkerConfig): Config {
    Config(WholeMillis(c.lease), c.timeout, c.margin, Retry(WholeMillis(c.retryDelay), c.maxAttempts))
  }

  /**
   For an accepted configuration, calls for one row never overlap in any run of prompt starts
   if and only if the lease still exceeds the budget after truncation to milliseconds; a lease
   of whole milliseconds always does.
   */
  lemma AcceptedConfigurationExcludes(c: WorkerConfig)
    requires Validate(c).Ok?
    ensures (forall t :: Reachable(QueueConfig(c), true, t) ==> Exclusive(t))
       <==> WholeMillis(c.lease) > c.timeout + c.margin
    ensures c.lease % NANOS_PER_MILLI == 0 ==>
      forall t :: Reachable(QueueConfig(c), true, t) ==> Exclusive(t)
  {
    BudgetIsExact(QueueConfig(c));
    assert c.lease == c.lease / NANOS_PER_MILLI * NANOS_PER_MILLI + c.lease % NANOS_PER_MILLI;
  }

  /** Validation compares untruncated durations, so a sub-millisecond lease can lose exclusion. */
  lemma SubMillisecondLeaseCanOverlap()
    ensures exists c :: Validate(c).Ok? && !(forall t :: Reachable(QueueConfig(c), true, t) ==> Exclusive(t))
  {
    var c := WorkerConfig([65], 1, 10_500_000, 10_000_000, 200_000, 1, 1, 1);
    assert Validate(c).Ok?;
    AcceptedConfigurationExcludes(c);
    assert WholeMillis(c.lease) == 10_000_000;
  }

  // ---------------------------------------------------------------------------------------
  // One round
  // ---------------------------------------------------------------------------------------

  function Count(verdicts: seq<Verdict>, v: Verdict): nat {
    if verdicts == [] then 0
    else Count(verdicts[..|verdicts| - 1], v) + (if verdicts[|verdicts| - 1] == v then 1 else 0)
  }

  /** The report of a round whose claims ended with these verdicts. */
  function Tally(verdicts: seq<Verdict>): Report {
    Report(|verdicts|, Count(verdicts, Success), Count(verdicts, RetryScheduled),
           Count(verdicts, FailedForGood), Count(verdicts, DeadLettered), Count(verdicts, StaleClaim))
  }

  /** Each column counts the claims with its own verdict. */
  ghost predicate Columns(r: Report, verdicts: seq<Verdict>) {
    && r.claimed == |verdicts|
    && r.published == multiset(verdicts)[Success] && r.retries == multiset(verdicts)[RetryScheduled]
    && r.failed == multiset(verdicts)[FailedForGood] && r.deadLettered == multiset(verdicts)[DeadLettered]
    && r.staleClaims == multiset(verdicts)[StaleClaim]
  }

  lemma {:induction false} CountIsMultiplicity(verdicts: seq<Verdict>, v: Verdict)
    ensures Count(verdicts, v) == multiset(verdicts)[v]
  {
    if verdicts != [] {
      var init := verdicts[..|verdicts| - 1];
      assert verdicts == init + [verdicts[|verdicts| - 1]];
      CountIsMultiplicity(init, v);
    }
  }

  lemma TallyCountsVerdicts(verdicts: seq<Verdict>)
    ensures Columns(Tally(verdicts), verdicts)
  {
    CountIsMultiplicity(verdicts, Success);
    CountIsMultiplicity(verdicts, RetryScheduled);
    CountIsMultiplicity(verdicts, FailedForGood);
    CountIsMultiplicity(verdicts, DeadLettered);
    CountIsMultiplicity(verdicts, StaleClaim);
  }

  /** Every claim of a round without repository errors is counted in exactly one column. */
  lemma {:induction false} EveryClaimIsCountedOnce(verdicts: seq<Verdict>)
    requires Unavailable !in verdicts
    ensures var r := Tally(verdicts);
      r.published + r.retries + r.failed + r.deadLettered + r.staleClaims == r.claimed == |verdicts|
  {
    if verdicts != [] {
      var init := verdicts[..|verdicts| - 1];
      assert verdicts == init + [verdicts[|verdicts| - 1]];
      EveryClaimIsCountedOnce(init);
    }
  }

  function Merge(report: Report, v: Verdict): Report {
    match v
    case Success => report.(published := report.published + 1)
    case RetryScheduled => report.(retries := report.retries + 1)
    case FailedForGood => report.(failed := report.failed + 1)
    case DeadLettered => report.(deadLettered := report.deadLettered + 1)
    case StaleClaim => report.(staleClaims := report.staleClaims + 1)
    case Unavailable => report
  }

  /** The row a claim leaves behind and the verdict its worker learns. */
  function Recorded(cfg: Config, row: Row, claim: Claim, call: Call): (Row, Verdict) {
    var (after, verdict) := Settled(cfg.retry, row, claim, call.outcome, call.recordedAt);
    (if call.reply.LostBefore? then row else after, if call.reply.Answered? then verdict else Unavailable)
  }

  /** `process_claim`, with a repository that may lose the request or its answer. */
  method ProcessClaim(q: Queue, cfg: Config, claim: Claim, call: Call) returns (verdict: Verdict)
    requires claim.id in q.rows
    modifies q
    ensures q.rows == old(q.rows)[claim.id := Recorded(cfg, old(q.rows)[claim.id], claim, call).0]
    ensures verdict == Recorded(cfg, old(q.rows)[claim.id], claim, call).1
  {
    if call.reply.LostBefore? {
      return Unavailable;
    }
    verdict := q.ProcessClaim(cfg.retry, claim, call.outcome, call.recordedAt);
    if call.reply.LostAfter? {
      verdict := Unavailable;
    }
  }

  /** The claims of a batch name pairwise distinct rows of `rows`. */
  ghost predicate Disjoint(rows: map<Id, Row>, claims: seq<Claim>) {
    && (forall i :: 0 <= i < |claims| ==> claims[i].id in rows)
    && (forall i, j :: 0 <= i < j < |claims| ==> claims[i].id != claims[j].id)
  }

  /** The concurrent half of `run_once`: every claim is processed, whatever happens to the others. */
  method ProcessAll(q: Queue, cfg: Config, claims: seq<Claim>, calls: nat -> Call) returns (verdicts: seq<Verdict>)
    requires Disjoint(q.rows, claims)
    modifies q
    ensures |verdicts| == |claims| && q.rows.Keys == old(q.rows).Keys
    ensures forall i :: 0 <= i < |claims| ==>
      (q.rows[claims[i].id], verdicts[i]) == Recorded(cfg, old(q.rows)[claims[i].id], claims[i], calls(i))
    ensures forall id :: id in q.rows && (forall i :: 0 <= i < |claims| ==> claims[i].id != id) ==>
      q.rows[id] == old(q.rows)[id]
  {
    verdicts := [];
    for n := 0 to |claims|
      invariant |verdicts| == n && q.rows.Keys == old(q.rows).Keys
      invariant forall i :: 0 <= i < n ==>
        (q.rows[claims[i].id], verdicts[i]) == Recorded(cfg, old(q.rows)[claims[i].id], claims[i], calls(i))
      invariant forall id :: id in q.rows && (forall i :: 0 <= i < n ==> claims[i].id != id) ==>
        q.rows[id] == old(q.rows)[id]
    {
      var verdict := ProcessClaim(q, cfg, claims[n], calls(n));
      verdicts := verdicts + [verdict];
    }
  }

  /** The merging half of `run_once`: the first repository error becomes the answer. */
  method MergeOutcomes(verdicts: seq<Verdict>) returns (r: Result<Report, WorkerError>)
    ensures r.Err? <==> Unavailable in verdicts
    ensures r == if Unavailable in verdicts then Err(RepositoryUnavailable) else Ok(Tally(verdicts))
    ensures r.Ok? ==> Columns(r.value, verdicts)
  {
    var report := Report(|verdicts|, 0, 0, 0, 0, 0);
    for n := 0 to |verdicts|
      invariant Unavailable !in verdicts[..n]
      invariant report == Tally(verdicts[..n]).(claimed := |verdicts|)
    {
      if verdicts[n].Unavailable? {
        return Err(RepositoryUnavailable);
      }
      report := Merge(report, verdicts[n]);
      assert verdicts[..n + 1][..n] == verdicts[..n];
    }
    assert verdicts[..|verdicts|] == verdicts;
    TallyCountsVerdicts(verdicts);
    r := Ok(report);
  }

  ghost predicate AllGranted(rows: map<Id, Row>, claims: seq<Claim>, owner: string, lease: nat, now: Time) {
    forall i :: 0 <= i < |claims| ==> Grants(rows, claims[i], owner, lease, now)
  }

  /** What becomes of one claimed row: claimed, then recorded. */
  function EndOf(cfg: Config, row: Row, claim: Claim, call: Call, owner: string, now: Time): (Row, Verdict) {
    Recorded(cfg, ClaimRow(row, owner, cfg.lease, now), claim, call)
  }

  ghost function Verdicts(cfg: Config, rows: map<Id, Row>, claims: seq<Claim>, calls: nat -> Call,
                          owner: string, now: Time): (r: seq<Verdict>)
    requires AllGranted(rows, claims, owner, cfg.lease, now)
    ensures |r| == |claims|
    ensures forall i :: 0 <= i < |claims| ==>
      r[i] == EndOf(cfg, rows[claims[i].id], claims[i], calls(i), owner, now).1
  {
    seq(|claims|, i requires 0 <= i < |claims| => EndOf(cfg, rows[claims[i].id], claims[i], calls(i), owner, now).1)
  }

  /** A batch claimed from `rows` is disjoint, and claiming it leaves these rows. */
  lemma GrantedBatch(rows: map<Id, Row>, claims: seq<Claim>, owner: string, lease: nat, now: Time)
    requires AllGranted(rows, claims, owner, lease, now) && |claims| == |Ids(claims)|
    ensures var after := AfterClaims(rows, Ids(claims), owner, lease, now);
      && Disjoint(after, claims)
      && (forall i :: 0 <= i < |claims| ==>
            after[claims[i].id] == ClaimRow(rows[claims[i].id], owner, lease, now))
  {
    IdsBound(claims);
    forall i | 0 <= i < |claims| ensures claims[i].id in Ids(claims) && claims[i].id in rows {
      assert Grants(rows, claims[i], owner, lease, now);
    }
  }

  /** Claiming and processing: every claimed row is recorded, no other row changes. */
  method ClaimAndProcess(q: Queue, cfg: Config, owner: string, batchSize: nat, now: Time,
                         candidates: seq<Id>, calls: nat -> Call)
    returns (claims: seq<Claim>, verdicts: seq<Verdict>)
    modifies q
    ensures |claims| == |Ids(claims)| <= batchSize
    ensures AllGranted(old(q.rows), claims, owner, cfg.lease, now)
    ensures verdicts == Verdicts(cfg, old(q.rows), claims, calls, owner, now)
    ensures q.rows.Keys == old(q.rows).Keys
    ensures forall id :: id in q.rows && id !in Ids(claims) ==> q.rows[id] == old(q.rows)[id]
    ensures forall i :: 0 <= i < |claims| ==>
      claims[i].id in q.rows && q.rows[claims[i].id] == EndOf(cfg, old(q.rows)[claims[i].id], claims[i], calls(i), owner, now).0
  {
    var taken;
    claims, taken := q.ClaimBatch(owner, batchSize, cfg.lease, now, candidates);
    GrantedBatch(old(q.rows), claims, owner, cfg.lease, now);
    verdicts := ProcessAll(q, cfg, claims, calls);
  }

  /**
   `run_once`: the report is Ok exactly when no repository call failed, and then it counts every
   claim once; every claimed row was recorded, and no other row changed.
   */
  method RunOnce(q: Queue, cfg: Config, owner: string, batchSize: nat, now: Time,
                 candidates: seq<Id>, claimFails: bool, calls: nat -> Call)
    returns (r: Result<Report, WorkerError>, claims: seq<Claim>)
    modifies q
    ensures |claims| == |Ids(claims)| <= (if claimFails then 0 else batchSize)
    ensures AllGranted(old(q.rows), claims, owner, cfg.lease, now)
    ensures q.rows.Keys == old(q.rows).Keys
    ensures forall id :: id in q.rows && id !in Ids(claims) ==> q.rows[id] == old(q.rows)[id]
    ensures forall i :: 0 <= i < |claims| ==>
      claims[i].id in q.rows && q.rows[claims[i].id] == EndOf(cfg, old(q.rows)[claims[i].id], claims[i], calls(i), owner, now).0
    ensures r.Ok? <==> !claimFails && forall i :: 0 <= i < |claims| ==> calls(i).reply.Answered?
    ensures r.Ok? ==>
      && Columns(r.value, Verdicts(cfg, old(q.rows), claims, calls, owner, now))
      && r.value.claimed == |claims|
      && r.value.published + r.value.retries + r.value.failed + r.value.deadLettered + r.value.staleClaims
         == |claims|
  {
    if claimFails {
      return Err(RepositoryUnavailable), [];
    }
    var verdicts;
    claims, verdicts := ClaimAndProcess(q, cfg, owner, batchSize, now, candidates, calls);
    UnavailableMeansUnanswered(cfg, old(q.rows), claims, calls, owner, now);
    r := MergeOutcomes(verdicts);
    if r.Ok? {
      EveryClaimIsCountedOnce(verdicts);
    }
  }

  lemma UnavailableMeansUnanswered(cfg: Config, rows: map<Id, Row>, claims: seq<Claim>, calls: nat -> Call,
                                   owner: string, now: Time)
    requires AllGranted(rows, claims, owner, cfg.lease, now)
    ensures Unavailable in Verdicts(cfg, rows, claims, calls, owner, now)
       <==> exists i :: 0 <= i < |claims| && !calls(i).reply.Answered?
  {
    var verdicts := Verdicts(cfg, rows, claims, calls, owner, now);
    forall i | 0 <= i < |claims|
      ensures verdicts[i] == Unavailable <==> !calls(i).reply.Answered?
    {
    }
    if i :| 0 <= i < |claims| && !calls(i).reply.Answered? {
      assert verdicts[i] == Unavailable;
    }
  }
}
