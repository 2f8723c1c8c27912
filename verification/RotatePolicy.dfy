/** The limits of a rotation run (internal/rotate/policy.go). Durations are milliseconds. */
module RotatePolicy {
  import opened Wrappers

  datatype PolicyError = EmptyLadder | BadRung | BadTimeout | BadPoll | NoAttempt | NoWorker | NegativeDuration | NegativeBudget

  datatype Policy = Policy(
    hardDeadline: int,
    ladder: seq<int>,
    waitConnect: int,
    pollInterval: int,
    verifyTimeout: int,
    maxAttempts: int,
    rebootBudgetPerDay: int,
    rebootCooldown: int,
    minInterval: int,
    maxConcurrent: int,
    jitter: int)
  {
    predicate Valid() {
      && ladder != [] && (forall h :: h in ladder ==> h > 0)
      && hardDeadline > 0 && waitConnect > 0 && verifyTimeout > 0 && pollInterval > 0
      && maxAttempts >= 1 && maxConcurrent >= 1
      && jitter >= 0 && minInterval >= 0 && rebootCooldown >= 0 && rebootBudgetPerDay >= 0
    }

    /** The hold of one attempt: its rung, clamped to both ends of the ladder. */
    function HoldFor(attempt: int): int {
      if ladder == [] then 0
      else if attempt < 1 then ladder[0]
      else if attempt > |ladder| then ladder[|ladder| - 1]
      else ladder[attempt - 1]
    }

    predicate AttemptFits(remaining: int, attempt: int) { remaining >= HoldFor(attempt) + verifyTimeout }

    /** The ladder is climbed a rung an attempt, and its last rung is held from then on. */
    ghost function RungAt(k: nat): int
      requires ladder != []
    {
      ladder[if k < |ladder| then k else |ladder| - 1]
    }

    /** The holds of the first n attempts. */
    function Rungs(n: nat): (r: seq<int>)
      ensures |r| == n
      ensures ladder != [] ==> forall k :: 0 <= k < n ==> r[k] == RungAt(k)
    {
      seq(n, i => HoldFor(i + 1))
    }
  }

  /** Policy.Validate accepts exactly the valid policies. */
  method Validate(p: Policy) returns (r: Option<PolicyError>)
    ensures r.None? <==> p.Valid()
  {
    if p.ladder == [] {
      return Some(EmptyLadder);
    }
    var i := 0;
    while i < |p.ladder|
      invariant 0 <= i <= |p.ladder|
      invariant forall j :: 0 <= j < i ==> p.ladder[j] > 0
    {
      assert p.ladder[i] in p.ladder;
      if p.ladder[i] <= 0 {
        return Some(BadRung);
      }
      i := i + 1;
    }
    if p.hardDeadline <= 0 || p.waitConnect <= 0 || p.verifyTimeout <= 0 {
      return Some(BadTimeout);
    }
    if p.pollInterval <= 0 {
      return Some(BadPoll);
    }
    if p.maxAttempts < 1 {
      return Some(NoAttempt);
    }
    if p.maxConcurrent < 1 {
      return Some(NoWorker);
    }
    if p.jitter < 0 || p.minInterval < 0 || p.rebootCooldown < 0 {
      return Some(NegativeDuration);
    }
    if p.rebootBudgetPerDay < 0 {
      return Some(NegativeBudget);
    }
    r := None;
  }
}
