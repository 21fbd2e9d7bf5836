/**
 * Android release identity (crates/patcher-core/src/version.rs) and the
 * supervisor's revision counter (deploy/run_managed.py).
 */
module Version {
  import opened Wrappers

  const BASE_CODE: nat := 800_000
  const MAX_CODE: nat := 2_100_000_000
  const MAX_REVISION: nat := MAX_CODE - BASE_CODE

  datatype AndroidVersion = AndroidVersion(revision: nat, versionCode: nat)

  datatype VersionError =
    | Missing
    | OutOfRange
    | Conflict(configured: nat, compiled: nat)

  function ResolveWith(configured: nat, compiled: nat): Result<AndroidVersion, VersionError>
  {
    if compiled != 0 && configured != 0 && compiled != configured then Err(Conflict(configured, compiled))
    else
      var revision := if compiled == 0 then configured else compiled;
      if revision == 0 then Err(Missing)
      else if revision > MAX_REVISION then Err(OutOfRange)
      else Ok(AndroidVersion(revision, BASE_CODE + revision))
  }

  /** `AndroidVersion::deployment` in a binary whose embedded revision is `compiled`. */
  function Deployment(configured: nat, compiled: nat, revision: Option<nat>): Result<AndroidVersion, VersionError>
  {
    var base :- ResolveWith(configured, compiled);
    match revision
    case None => Ok(base)
    case Some(value) =>
      if value >= base.revision then ResolveWith(value, 0)
      else Err(Conflict(value, base.revision))
  }

  /** `next_revision`; None is the "counter exhausted" error. */
  function NextRevision(previous: nat, compiled: nat): Option<nat>
  {
    var result := if previous + 1 >= compiled then previous + 1 else compiled;
    if 0 < result <= MAX_REVISION then Some(result) else None
  }

  /**
   * What a worker does at start (crates/patcher-web/src/main.rs:205-211): resolve the
   * configured revision, write it back, and resolve the deployment revision over it.
   */
  function WorkerIdentity(configured: nat, compiled: nat, revision: Option<nat>): Result<AndroidVersion, VersionError>
  {
    var base :- ResolveWith(configured, compiled);
    Deployment(base.revision, compiled, revision)
  }

  /** Exactly the numbered binaries accept the revision allocated for them. */
  lemma AllocatedRevisionAccepted(previous: nat, compiled: nat)
    requires NextRevision(previous, compiled).Some?
    ensures var r := NextRevision(previous, compiled).value;
            && r > previous
            && (WorkerIdentity(0, compiled, Some(r)) == Ok(AndroidVersion(r, BASE_CODE + r)) <==> compiled != 0)
            && BASE_CODE + r <= MAX_CODE
  {
  }

  /** A deployment identity never falls below the binary's own release number. */
  lemma DeploymentNeverRelabelsBelowRelease(configured: nat, compiled: nat, revision: Option<nat>)
    ensures var d := Deployment(configured, compiled, revision);
            d.Ok? ==>
              && 0 < d.value.revision <= MAX_REVISION
              && d.value.revision >= compiled
              && d.value.versionCode == BASE_CODE + d.value.revision
              && (revision.Some? ==> d.value.revision == revision.value)
  {
  }

  /** The counter is exhausted only when the counter or the binary is at the ceiling. */
  lemma ExhaustedExactlyAtCeiling(previous: nat, compiled: nat)
    ensures NextRevision(previous, compiled).None? <==> previous >= MAX_REVISION || compiled > MAX_REVISION
  {
  }

  /** Above the counter and not below the binary's own number. */
  predicate IsAbove(revision: nat, previous: nat, compiled: nat) { revision > previous && revision >= compiled }

  /**
   * The revision allocated is the least that is above the counter and not below the binary's
   * own, and there is one exactly while that least is at most 2100000000 - 800000.
   */
  lemma LeastRevision(previous: nat, compiled: nat, revision: nat)
    ensures NextRevision(previous, compiled) == Some(revision) <==>
              && IsAbove(revision, previous, compiled) && revision <= 2099200000
              && forall r: nat :: IsAbove(r, previous, compiled) ==> r >= revision
  {
    var least := if previous + 1 >= compiled then previous + 1 else compiled;
    assert IsAbove(least, previous, compiled);
  }

  /**
   * Which configured and compiled numbers give an identity: at least one is set, they do not
   * contradict each other, and the number is in range; its version code follows 800000.
   */
  lemma ResolvedExactly(configured: nat, compiled: nat, n: nat)
    ensures var r := ResolveWith(configured, compiled);
            && (r.Ok? && r.value.revision == n <==>
                  && 0 < n <= 2099200000 && (configured == n || compiled == n)
                  && (configured == 0 || configured == n) && (compiled == 0 || compiled == n))
            && (r.Ok? ==> r.value.versionCode == 800000 + r.value.revision)
            && (r == Err(Missing) <==> configured == 0 && compiled == 0)
            && (r.Err? && r.error.Conflict? <==> configured != 0 && compiled != 0 && configured != compiled)
  {
  }

  /** A deployment revision is taken exactly when the base resolves and is not above it. */
  lemma DeployedExactly(configured: nat, compiled: nat, revision: nat)
    ensures var base := ResolveWith(configured, compiled);
            var d := Deployment(configured, compiled, Some(revision));
            && (d == Ok(AndroidVersion(revision, 800000 + revision)) <==>
                  base.Ok? && base.value.revision <= revision <= 2099200000)
            && (d.Ok? ==> d.value.revision == revision)
            && Deployment(configured, compiled, None) == base
  {
  }
}
