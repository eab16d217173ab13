/**
 The account-purge worker: claims are finalized one after another, each in its own
 transaction, and a failed finalization releases its claim.
 */
module PurgeWorker {
  import opened Common

  datatype Report = Report(claimed: nat, purged: nat, failed: nat, releasedClaims: nat, staleClaims: nat)

  datatype WorkerError = RepositoryUnavailable | TransactionUnavailable

  /** How the environment answers for one claim; `released` is `None` on a repository error. */
  datatype Answers = Answers(begin: bool, finalized: bool, commit: bool, rollback: bool, released: Option<bool>)

  datatype Fate = Purged | Released | Stale | Broken(error: WorkerError)

  function FateOf(a: Answers): Fate {
    if !a.begin then Broken(TransactionUnavailable)
    else if a.finalized then (if a.commit then Purged else Broken(TransactionUnavailable))
    else if !a.rollback then Broken(TransactionUnavailable)
    else match a.released
      case None => Broken(RepositoryUnavailable)
      case Some(released) => if released then Released else Stale
  }

  /** `process_claim`. */
  method ProcessClaim(a: Answers) returns (r: Result<Report, WorkerError>)
    ensures r.Err? && r.error.TransactionUnavailable? <==> !a.begin || (if a.finalized then !a.commit else !a.rollback)
    ensures r.Err? && r.error.RepositoryUnavailable? <==> a.begin && !a.finalized && a.rollback && a.released.None?
    ensures r.Ok? ==>
      && r.value.claimed == 0 && r.value.purged + r.value.failed == 1
      && r.value.failed == r.value.releasedClaims + r.value.staleClaims
      && (r.value.purged == 1 <==> a.finalized)
      && (r.value.releasedClaims == 1 <==> !a.finalized && a.released.Some? && a.released.value)
      && (r.value.staleClaims == 1 <==> !a.finalized && a.released.Some? && !a.released.value)
  {
    if !a.begin {
      return Err(TransactionUnavailable);
    }
    if a.finalized {
      if !a.commit {
        return Err(TransactionUnavailable);
      }
      return Ok(Report(0, 1, 0, 0, 0));
    }
    if !a.rollback {
      return Err(TransactionUnavailable);
    }
    if a.released.None? {
      return Err(RepositoryUnavailable);
    }
    var released := if a.released.value then 1 else 0;
    r := Ok(Report(0, 0, 1, released, 1 - released));
  }

  function Count(claims: seq<Answers>, fate: Fate): nat {
    if claims == [] then 0
    else Count(claims[..|claims| - 1], fate) + (if FateOf(claims[|claims| - 1]) == fate then 1 else 0)
  }

  ghost predicate NoneBroken(claims: seq<Answers>) {
    forall i :: 0 <= i < |claims| ==> !FateOf(claims[i]).Broken?
  }

  lemma {:induction false} FatesPartition(claims: seq<Answers>)
    requires NoneBroken(claims)
    ensures Count(claims, Purged) + Count(claims, Released) + Count(claims, Stale) == |claims|
  {
    if claims != [] {
      FatesPartition(claims[..|claims| - 1]);
      assert !FateOf(claims[|claims| - 1]).Broken?;
    }
  }

  /**
   `run_once`, after the claiming statement: it stops with the first error, and otherwise counts
   every claim as purged or failed, and every failed one as released or stale.
   */
  method RunOnce(claims: seq<Answers>) returns (r: Result<Report, WorkerError>)
    ensures r.Ok? ==>
      && r.value == Report(|claims|, Count(claims, Purged),
           Count(claims, Released) + Count(claims, Stale), Count(claims, Released), Count(claims, Stale))
      && r.value.purged + r.value.failed == r.value.claimed
      && r.value.failed == r.value.releasedClaims + r.value.staleClaims
    ensures r.Ok? <==> NoneBroken(claims)
    ensures r.Err? ==>
      exists i :: 0 <= i < |claims| && FateOf(claims[i]) == Broken(r.error) && NoneBroken(claims[..i])
  {
    var report := Report(|claims|, 0, 0, 0, 0);
    for n := 0 to |claims|
      invariant NoneBroken(claims[..n])
      invariant report == Report(|claims|, Count(claims[..n], Purged),
        Count(claims[..n], Released) + Count(claims[..n], Stale), Count(claims[..n], Released), Count(claims[..n], Stale))
    {
      var outcome := ProcessClaim(claims[n]);
      if outcome.Err? {
        assert FateOf(claims[n]) == Broken(outcome.error);
        return Err(outcome.error);
      }
      assert claims[..n + 1][..n] == claims[..n];
      var one := outcome.value;
      report := Report(report.claimed, report.purged + one.purged, report.failed + one.failed,
        report.releasedClaims + one.releasedClaims, report.staleClaims + one.staleClaims);
    }
    assert claims[..|claims|] == claims;
    FatesPartition(claims);
    r := Ok(report);
  }
}
