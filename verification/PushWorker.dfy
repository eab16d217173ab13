/**
 The push-delivery worker: the path one claim takes through authorization, preview, provider
 and feedback, the report of a round, and the retry backoff.
 */
module PushWorker {
  import opened Common
  import LeaseQueue

  datatype Report = Report(
    claimed: nat, succeeded: nat, retries: nat, deadLettered: nat,
    invalidDestinations: nat, authorizationDenied: nat, staleClaims: nat)

  datatype WorkerError = RepositoryUnavailable

  /** `matches`: the authorization names the claimed occurrence. */
  datatype Authorization = Delivery(matches: bool) | ReportAlert(matches: bool) | Denied
  datatype Provider = Accepted | DeviceNotRegistered | Unavailable | Rejected | Elapsed
  datatype Disposition = RetryScheduled | DeadLettered | StaleClaim

  /**
   How the environment answers for one claim. A `bool` is a transaction step that succeeds or
   fails; `failure` may depend on the attempt limit the worker passes.
   */
  datatype Answers = Answers(
    begin: bool, authorization: Option<Authorization>, finish: bool,
    preview: bool, provider: Provider,
    marked: Option<bool>,
    beginDisable: bool, disabled: Option<bool>, finishDisable: bool,
    failure: nat -> Option<Disposition>)

  datatype Column = Succeeded | Retried | Dead | Invalid | Stale

  /** Where a claim ends up, and whether its authorization was denied; `None` is a repository error. */
  datatype Fate = Fate(column: Column, denied: bool)

  const EMPTY := Report(0, 0, 0, 0, 0, 0, 0)

  /** The report with one more claim in a column. */
  function Bump(r: Report, column: Column): Report {
    match column
    case Succeeded => r.(succeeded := r.succeeded + 1)
    case Retried => r.(retries := r.retries + 1)
    case Dead => r.(deadLettered := r.deadLettered + 1)
    case Invalid => r.(invalidDestinations := r.invalidDestinations + 1)
    case Stale => r.(staleClaims := r.staleClaims + 1)
  }

  function Single(fate: Fate): Report {
    Bump(EMPTY.(authorizationDenied := if fate.denied then 1 else 0), fate.column)
  }

  // ---------------------------------------------------------------------------------------
  // Which answers lead where
  // ---------------------------------------------------------------------------------------

  /** The attempt limit a refused or lost provider call is recorded with. */
  function ProviderLimit(p: Provider, maxAttempts: nat): Option<nat> {
    match p
    case Rejected => Some(1)
    case Unavailable => Some(maxAttempts)
    case Elapsed => Some(maxAttempts)
    case _ => None
  }

  /** The repository recorded a failure under `limit` with disposition `d`. */
  predicate FailedWith(a: Answers, limit: Option<nat>, d: Disposition) {
    limit.Some? && a.failure(limit.value).Some? && a.failure(limit.value).value == d
  }

  predicate FailureRecorded(a: Answers, limit: Option<nat>) {
    limit.Some? ==> a.failure(limit.value).Some?
  }

  /** The statements that follow the provider's answer all answered. */
  predicate ProviderRecorded(a: Answers, maxAttempts: nat) {
    && (a.provider.Accepted? ==> a.marked.Some?)
    && (a.provider.DeviceNotRegistered? ==> a.beginDisable && a.disabled.Some? && a.finishDisable)
    && FailureRecorded(a, ProviderLimit(a.provider, maxAttempts))
  }

  /** The claim's authorization was read, its transaction ended, and it names the claim or denies it. */
  predicate Authorized(a: Answers) {
    && a.begin && a.finish && a.authorization.Some?
    && (a.authorization.value.Denied? || a.authorization.value.matches)
  }

  /** The provider is called: for a report alert, or a delivery whose preview was loaded. */
  predicate Sent(a: Answers) {
    Authorized(a) && (a.authorization.value.ReportAlert? || (a.authorization.value.Delivery? && a.preview))
  }

  /** The attempt limit under which the claim's failure is recorded, if it has one. */
  function FailureLimit(a: Answers, maxAttempts: nat): Option<nat> {
    if !Authorized(a) then None
    else if Sent(a) then ProviderLimit(a.provider, maxAttempts)
    else if a.authorization.value.Denied? then Some(1)
    else Some(maxAttempts)
  }

  predicate Delivered(a: Answers) {
    a.provider.Accepted? && a.marked.Some? && a.marked.value
  }

  predicate Disabled(a: Answers) {
    a.provider.DeviceNotRegistered? && a.disabled.Some? && a.disabled.value
  }

  /** The column of a claim, told from its answers; a claim that nothing else explains was stale. */
  function ColumnFor(a: Answers, sent: bool, limit: Option<nat>): Column {
    if sent && Delivered(a) then Succeeded
    else if sent && Disabled(a) then Invalid
    else if FailedWith(a, limit, RetryScheduled) then Retried
    else if FailedWith(a, limit, DeadLettered) then Dead
    else Stale
  }

  predicate Answered(a: Answers, maxAttempts: nat) {
    && Authorized(a) && (Sent(a) ==> ProviderRecorded(a, maxAttempts))
    && FailureRecorded(a, FailureLimit(a, maxAttempts))
  }

  function FateOf(a: Answers, maxAttempts: nat): Option<Fate> {
    if !Answered(a, maxAttempts) then None
    else Some(Fate(ColumnFor(a, Sent(a), FailureLimit(a, maxAttempts)), a.authorization.value.Denied?))
  }

  /** Which answers lead to which column. */
  predicate ClaimColumns(a: Answers, maxAttempts: nat, column: Column) {
    var limit := FailureLimit(a, maxAttempts);
    && (column == Succeeded <==> Sent(a) && a.provider.Accepted? && a.marked.Some? && a.marked.value)
    && (column == Invalid <==> Sent(a) && a.provider.DeviceNotRegistered? && a.disabled.Some? && a.disabled.value)
    && (column == Retried <==> FailedWith(a, limit, RetryScheduled))
    && (column == Dead <==> FailedWith(a, limit, DeadLettered))
    && (column == Stale <==>
          || (Sent(a) && a.provider.Accepted? && a.marked.Some? && !a.marked.value)
          || (Sent(a) && a.provider.DeviceNotRegistered? && a.disabled.Some? && !a.disabled.value)
          || FailedWith(a, limit, StaleClaim))
  }

  /**
   Each column if and only if its answers: a claim is stale exactly when its success, its disabling or its
   failure found the claim no longer current.
   */
  lemma ColumnsAreExact(a: Answers, maxAttempts: nat)
    requires Answered(a, maxAttempts)
    ensures ClaimColumns(a, maxAttempts, FateOf(a, maxAttempts).value.column)
  {
    var limit := FailureLimit(a, maxAttempts);
    if limit.Some? {
      match a.failure(limit.value).value {
        case RetryScheduled =>
        case DeadLettered =>
        case StaleClaim =>
      }
    }
  }

  /** What the failure statement answers for the row it left. */
  function DispositionOf(row: LeaseQueue.Row): Disposition {
    if row.status.Waiting? then RetryScheduled else DeadLettered
  }

  /** The repository answers as the failure statement does on `row`, whose claim is still current. */
  ghost predicate Obeys(a: Answers, row: LeaseQueue.Row, delay: nat, now: LeaseQueue.Time) {
    forall limit: nat :: a.failure(limit).Some? ==>
      a.failure(limit).value == DispositionOf(LeaseQueue.AfterFailure(LeaseQueue.Retry(delay, limit), row, false, now))
  }

  /** The provider could not be reached, or the preview could not be loaded: another attempt may help. */
  predicate Transient(a: Answers) {
    Authorized(a) && !a.authorization.value.Denied? && (Sent(a) ==> a.provider.Unavailable? || a.provider.Elapsed?)
  }

  /** The recipient may not have it, or the provider will not take it. */
  predicate Final(a: Answers) {
    Authorized(a) && (a.authorization.value.Denied? || (Sent(a) && a.provider.Rejected?))
  }

  /**
   Worker and failure statement together: a denied or rejected push is given up at once, whatever attempts
   it has left; a push that failed otherwise is retried if and only if an attempt is left and the retry
   comes before the deadline.
   */
  lemma FailuresAreSettled(a: Answers, maxAttempts: nat, row: LeaseQueue.Row, delay: nat, now: LeaseQueue.Time)
    requires Answered(a, maxAttempts) && Obeys(a, row, delay, now)
    ensures var column := FateOf(a, maxAttempts).value.column;
      && (Final(a) ==> column == Dead)
      && (Transient(a) ==> column in {Retried, Dead})
      && (Transient(a) ==>
            (column == Retried <==>
              && row.attempts + 1 < maxAttempts
              && (row.deadline.Some? ==> now + delay < row.deadline.value)))
  {
    ColumnsAreExact(a, maxAttempts);
  }

  /** Which disposition leads to which column. */
  predicate FailureColumns(a: Answers, limit: nat, column: Column) {
    && column in {Retried, Dead, Stale}
    && (column == Retried <==> FailedWith(a, Some(limit), RetryScheduled))
    && (column == Dead <==> FailedWith(a, Some(limit), DeadLettered))
    && (column == Stale <==> FailedWith(a, Some(limit), StaleClaim))
  }

  /** One more claim in the column of its disposition, or an error when the repository gave none. */
  method RecordFailure(a: Answers, limit: nat, report: Report) returns (r: Result<Report, WorkerError>)
    ensures r.Ok? <==> FailureRecorded(a, Some(limit))
    ensures r.Ok? ==> r.value == Bump(report, ColumnFor(a, false, Some(limit)))
    ensures r.Ok? ==> FailureColumns(a, limit, ColumnFor(a, false, Some(limit)))
  {
    var answer := a.failure(limit);
    if answer.None? {
      return Err(RepositoryUnavailable);
    }
    match answer.value {
      case RetryScheduled => r := Ok(report.(retries := report.retries + 1));
      case DeadLettered => r := Ok(report.(deadLettered := report.deadLettered + 1));
      case StaleClaim => r := Ok(report.(staleClaims := report.staleClaims + 1));
    }
  }

  method Authorize(a: Answers) returns (r: Result<Authorization, WorkerError>)
    ensures r.Ok? <==> a.begin && a.finish && a.authorization.Some?
                       && (a.authorization.value.Denied? || a.authorization.value.matches)
    ensures r.Ok? ==> r.value == a.authorization.value
  {
    if !a.begin {
      return Err(RepositoryUnavailable);
    }
    // commit on a matching authorization, roll back otherwise; either may fail
    if !a.finish || a.authorization.None? {
      return Err(RepositoryUnavailable);
    }
    var answer := a.authorization.value;
    if !answer.Denied? && !answer.matches {
      return Err(RepositoryUnavailable);
    }
    r := Ok(answer);
  }

  /** Which provider answers lead to which column. */
  predicate ProviderColumns(a: Answers, maxAttempts: nat, column: Column) {
    var limit := ProviderLimit(a.provider, maxAttempts);
    && (column == Succeeded <==> a.provider.Accepted? && a.marked.Some? && a.marked.value)
    && (column == Invalid <==> a.provider.DeviceNotRegistered? && a.disabled.Some? && a.disabled.value)
    && (column == Retried <==> FailedWith(a, limit, RetryScheduled))
    && (column == Dead <==> FailedWith(a, limit, DeadLettered))
    && (column == Stale <==>
          || (a.provider.Accepted? && a.marked.Some? && !a.marked.value)
          || (a.provider.DeviceNotRegistered? && a.disabled.Some? && !a.disabled.value)
          || FailedWith(a, limit, StaleClaim))
  }

  lemma ProviderColumnsAreExact(a: Answers, maxAttempts: nat)
    requires ProviderRecorded(a, maxAttempts)
    ensures ProviderColumns(a, maxAttempts, ColumnFor(a, true, ProviderLimit(a.provider, maxAttempts)))
  {
    var limit := ProviderLimit(a.provider, maxAttempts);
    if limit.Some? {
      match a.failure(limit.value).value {
        case RetryScheduled =>
        case DeadLettered =>
        case StaleClaim =>
      }
    }
  }

  /** `finish_provider_outcome`: one column, told from the provider's answer and what followed it. */
  method FinishProviderOutcome(a: Answers, maxAttempts: nat) returns (r: Result<Report, WorkerError>)
    ensures r.Ok? <==> ProviderRecorded(a, maxAttempts)
    ensures r.Ok? ==> r.value == Bump(EMPTY, ColumnFor(a, true, ProviderLimit(a.provider, maxAttempts)))
    ensures r.Ok? ==> ProviderColumns(a, maxAttempts, ColumnFor(a, true, ProviderLimit(a.provider, maxAttempts)))
  {
    if ProviderRecorded(a, maxAttempts) {
      ProviderColumnsAreExact(a, maxAttempts);
    }
    match a.provider {
      case Accepted =>
        if a.marked.None? {
          return Err(RepositoryUnavailable);
        }
        assert ColumnFor(a, true, None) == if a.marked.value then Succeeded else Stale;
        r := Ok(if a.marked.value then EMPTY.(succeeded := 1) else EMPTY.(staleClaims := 1));
      case DeviceNotRegistered =>
        if !a.beginDisable || a.disabled.None? || !a.finishDisable {
          return Err(RepositoryUnavailable);
        }
        assert ColumnFor(a, true, None) == if a.disabled.value then Invalid else Stale;
        r := Ok(if a.disabled.value then EMPTY.(invalidDestinations := 1) else EMPTY.(staleClaims := 1));
      case Unavailable => r := RecordFailure(a, maxAttempts, EMPTY);
      case Rejected => r := RecordFailure(a, 1, EMPTY);
      case Elapsed => r := RecordFailure(a, maxAttempts, EMPTY);
    }
  }

  /** `process_claim`: one column, told from all the answers, and an error exactly when one is missing. */
  method ProcessClaim(a: Answers, maxAttempts: nat) returns (r: Result<Report, WorkerError>)
    ensures r.Ok? <==> Answered(a, maxAttempts)
    ensures r.Ok? ==> r.value == Single(FateOf(a, maxAttempts).value)
    ensures r.Ok? ==> ClaimColumns(a, maxAttempts, FateOf(a, maxAttempts).value.column)
  {
    if Answered(a, maxAttempts) {
      ColumnsAreExact(a, maxAttempts);
    }
    var authorized := Authorize(a);
    if authorized.Err? {
      return Err(RepositoryUnavailable);
    }
    match authorized.value {
      case Denied =>
        r := RecordFailure(a, 1, EMPTY.(authorizationDenied := 1));
      case ReportAlert(_) =>
        r := FinishProviderOutcome(a, maxAttempts);
      case Delivery(_) =>
        if !a.preview {
          r := RecordFailure(a, maxAttempts, EMPTY);
        } else {
          r := FinishProviderOutcome(a, maxAttempts);
        }
    }
  }

  function Merge(x: Report, y: Report): Report {
    Report(x.claimed, x.succeeded + y.succeeded, x.retries + y.retries, x.deadLettered + y.deadLettered,
      x.invalidDestinations + y.invalidDestinations, x.authorizationDenied + y.authorizationDenied,
      x.staleClaims + y.staleClaims)
  }

  /** How many of the claims have this fate, by column and by denial. */
  function CountColumn(claims: seq<Answers>, maxAttempts: nat, column: Column): nat {
    if claims == [] then 0
    else
      var fate := FateOf(claims[|claims| - 1], maxAttempts);
      CountColumn(claims[..|claims| - 1], maxAttempts, column)
      + (if fate.Some? && fate.value.column == column then 1 else 0)
  }

  function CountDenied(claims: seq<Answers>, maxAttempts: nat): nat {
    if claims == [] then 0
    else
      var fate := FateOf(claims[|claims| - 1], maxAttempts);
      CountDenied(claims[..|claims| - 1], maxAttempts) + (if fate.Some? && fate.value.denied then 1 else 0)
  }

  ghost predicate AllAnswered(claims: seq<Answers>, maxAttempts: nat) {
    forall i :: 0 <= i < |claims| ==> FateOf(claims[i], maxAttempts).Some?
  }

  /** Every claim is in exactly one column, and a denied one is retried, dead or stale. */
  lemma {:induction false} ColumnsPartition(claims: seq<Answers>, maxAttempts: nat)
    requires AllAnswered(claims, maxAttempts)
    ensures CountColumn(claims, maxAttempts, Succeeded) + CountColumn(claims, maxAttempts, Retried)
          + CountColumn(claims, maxAttempts, Dead) + CountColumn(claims, maxAttempts, Invalid)
          + CountColumn(claims, maxAttempts, Stale) == |claims|
    ensures CountDenied(claims, maxAttempts) <= CountColumn(claims, maxAttempts, Retried)
          + CountColumn(claims, maxAttempts, Dead) + CountColumn(claims, maxAttempts, Stale)
  {
    if claims != [] {
      ColumnsPartition(claims[..|claims| - 1], maxAttempts);
      assert FateOf(claims[|claims| - 1], maxAttempts).Some?;
    }
  }

  /** `run_once`, after the claiming statement. */
  method RunOnce(claims: seq<Answers>, maxAttempts: nat) returns (r: Result<Report, WorkerError>)
    ensures r.Ok? <==> AllAnswered(claims, maxAttempts)
    ensures r.Ok? ==> r.value == Report(|claims|,
      CountColumn(claims, maxAttempts, Succeeded), CountColumn(claims, maxAttempts, Retried),
      CountColumn(claims, maxAttempts, Dead), CountColumn(claims, maxAttempts, Invalid),
      CountDenied(claims, maxAttempts), CountColumn(claims, maxAttempts, Stale))
    ensures r.Ok? ==>
      && r.value.succeeded + r.value.retries + r.value.deadLettered + r.value.invalidDestinations
         + r.value.staleClaims == r.value.claimed
      && r.value.authorizationDenied <= r.value.retries + r.value.deadLettered + r.value.staleClaims
  {
    var report := EMPTY.(claimed := |claims|);
    for n := 0 to |claims|
      invariant AllAnswered(claims[..n], maxAttempts)
      invariant report == Report(|claims|,
        CountColumn(claims[..n], maxAttempts, Succeeded), CountColumn(claims[..n], maxAttempts, Retried),
        CountColumn(claims[..n], maxAttempts, Dead), CountColumn(claims[..n], maxAttempts, Invalid),
        CountDenied(claims[..n], maxAttempts), CountColumn(claims[..n], maxAttempts, Stale))
    {
      var outcome := ProcessClaim(claims[n], maxAttempts);
      if outcome.Err? {
        return Err(RepositoryUnavailable);
      }
      assert claims[..n + 1][..n] == claims[..n];
      report := Merge(report, outcome.value);
    }
    assert claims[..|claims|] == claims;
    ColumnsPartition(claims, maxAttempts);
    r := Ok(report);
  }

  // ---------------------------------------------------------------------------------------
  // Backoff
  // ---------------------------------------------------------------------------------------

  const MAX_U32 := 0xFFFF_FFFF
  /** `std::time::Duration::MAX` in nanoseconds. */
  const MAX_DURATION := 0xFFFF_FFFF_FFFF_FFFF * 1_000_000_000 + 999_999_999
  /** The largest retry delay the configuration accepts: 300000 milliseconds. */
  const MAX_RETRY_DELAY := 300_000 * 1_000_000
  const MAX_SHIFT := 10

  function Min(a: nat, b: nat): nat {
    if a <= b then a else b
  }

  function Pow2(n: nat): nat {
    if n == 0 then 1 else 2 * Pow2(n - 1)
  }

  /** The delay scheduled after a failure of a claim that had `attempts` failures before it. */
  function RetryDelay(retryDelay: nat, attempts: nat): nat {
    var attempt := Min(attempts + 1, MAX_U32);
    var shift := Min(if attempt == 0 then 0 else attempt - 1, MAX_SHIFT);
    Min(retryDelay * Pow2(shift), MAX_DURATION)
  }

  lemma {:induction false} Pow2Grows(m: nat, n: nat)
    requires m <= n
    ensures 1 <= Pow2(m) <= Pow2(n)
  {
    if m > 0 {
      Pow2Grows(m - 1, n - 1);
    } else if n > 0 {
      Pow2Grows(m, n - 1);
    }
  }

  lemma TenDoublings()
    ensures Pow2(MAX_SHIFT) == 1024
  {
    assert Pow2(5) == 32;
    assert Pow2(7) == 128;
    assert Pow2(9) == 512;
  }

  lemma Scale(d: nat, p: nat, q: nat)
    requires p <= q
    ensures d * p <= d * q
  {
  }

  /** With an accepted retry delay nothing saturates: the delay is exactly the doubled one. */
  lemma AcceptedDelayNeverSaturates(d: nat, attempts: nat)
    requires 0 < d <= MAX_RETRY_DELAY && attempts <= MAX_U32
    ensures RetryDelay(d, attempts) == d * Factor(attempts)
    ensures 1 <= Factor(attempts) <= 1024
  {
    Pow2Grows(Min(attempts, MAX_SHIFT), MAX_SHIFT);
    TenDoublings();
    Scale(d, Factor(attempts), 1024);
  }

  function Factor(attempts: nat): nat {
    Pow2(Min(attempts, MAX_SHIFT))
  }

  /** The delay never shrinks with the attempt count and stays between `d` and `1024 d`. */
  lemma DelayGrowsWithinBounds(d: nat, m: nat, n: nat)
    requires 0 < d <= MAX_RETRY_DELAY && m <= n <= MAX_U32
    ensures d <= RetryDelay(d, m) <= RetryDelay(d, n) <= 1024 * d
  {
    AcceptedDelayNeverSaturates(d, m);
    AcceptedDelayNeverSaturates(d, n);
    Pow2Grows(Min(m, MAX_SHIFT), Min(n, MAX_SHIFT));
    var p, q := Factor(m), Factor(n);
    Scale(d, 1, p);
    Scale(d, p, q);
    Scale(d, q, 1024);
  }

  /** The delays scheduled by the first `k` consecutive failures, added up. */
  function TotalDelay(d: nat, k: nat): nat {
    if k == 0 then 0 else TotalDelay(d, k - 1) + RetryDelay(d, k - 1)
  }

  /** The sum of the first `k` factors. */
  function TotalFactor(k: nat): int {
    if k <= 11 then Pow2(k) - 1 else 2047 + 1024 * (k - 11)
  }

  lemma FactorSums(k: nat)
    ensures TotalFactor(k) >= 0
    ensures TotalFactor(k + 1) == TotalFactor(k) + Factor(k)
  {
    Pow2Grows(0, k);
    TenDoublings();
    assert Pow2(11) == 2 * Pow2(10);
  }

  lemma Distribute(d: nat, a: int, b: int)
    ensures d * a + d * b == d * (a + b)
  {
  }

  lemma {:induction false} TotalDelayFactors(d: nat, k: nat)
    requires 0 < d <= MAX_RETRY_DELAY && k <= MAX_U32
    ensures TotalDelay(d, k) == d * TotalFactor(k)
  {
    if k > 0 {
      TotalDelayFactors(d, k - 1);
      AcceptedDelayNeverSaturates(d, k - 1);
      FactorSums(k - 1);
      Distribute(d, TotalFactor(k - 1), Factor(k - 1));
    }
  }

  /** Doubling for eleven failures, then a constant 1024-fold delay. */
  lemma TotalDelayClosedForm(d: nat, k: nat)
    requires 0 < d <= MAX_RETRY_DELAY && k <= MAX_U32
    ensures k <= 11 ==> TotalDelay(d, k) == d * (Pow2(k) - 1)
    ensures k > 11 ==> TotalDelay(d, k) == d * (2047 + 1024 * (k - 11))
  {
    TotalDelayFactors(d, k);
  }
}
