/**
 * The agent's batch delivery with retries (internal/agent/httpagent/httpagent.go,
 * repeated line for line in internal/agent/routines.go).
 *
 * The network is an oracle: `responses(n)` is what the n-th call (counted from 0
 * over the whole run) reports. A sleep is recorded as its length in seconds.
 */
module Delivery {
  /** What one send reports: success, ECONNREFUSED, or any other error. */
  datatype SendResult = Ok | ConnRefused | OtherErr

  /** The pause in seconds before each of the four attempts. */
  const Intervals: seq<nat> := [0, 1, 3, 5]

  /** The number of calls one round makes when its first call has index `base`. */
  function RoundAttempts(responses: nat -> SendResult, base: nat): (n: nat)
    ensures 1 <= n <= |Intervals|
  {
    AttemptsFrom(responses, base, 0)
  }

  /** The calls still to come once `k` attempts were refused. */
  function AttemptsFrom(responses: nat -> SendResult, base: nat, k: nat): (n: nat)
    requires k < |Intervals|
    ensures k < n <= |Intervals|
    decreases |Intervals| - k
  {
    if responses(base + k) != ConnRefused || k == |Intervals| - 1 then k + 1
    else AttemptsFrom(responses, base, k + 1)
  }

  /** The error a round ends with: the answer to its last call. */
  function RoundError(responses: nat -> SendResult, base: nat): SendResult
  {
    responses(base + RoundAttempts(responses, base) - 1)
  }

  /**
   * The stopping rule: every call before the last was refused, and the round
   * stops early exactly when a call is not refused.
   */
  lemma {:induction false} AttemptsFromStops(responses: nat -> SendResult, base: nat, k: nat)
    requires k < |Intervals|
    ensures forall n | base + k <= n < base + AttemptsFrom(responses, base, k) - 1 :: responses(n) == ConnRefused
    ensures AttemptsFrom(responses, base, k) < |Intervals| ==>
      responses(base + AttemptsFrom(responses, base, k) - 1) != ConnRefused
    decreases |Intervals| - k
  {
    if responses(base + k) == ConnRefused && k < |Intervals| - 1 {
      AttemptsFromStops(responses, base, k + 1);
    }
  }

  /** The round's attempts, stated without the recursion. */
  lemma RoundStops(responses: nat -> SendResult, base: nat)
    ensures var n := RoundAttempts(responses, base);
      && (forall c | base <= c < base + n - 1 :: responses(c) == ConnRefused)
      && (n < |Intervals| ==> RoundError(responses, base) != ConnRefused)
      && (RoundError(responses, base) == ConnRefused ==> n == |Intervals|)
  {
    AttemptsFromStops(responses, base, 0);
  }

  /**
   * The interval loop of sendWorker: sleep, call, and stop at the first answer
   * that is not ECONNREFUSED, success included.
   */
  method RetryRound(responses: nat -> SendResult, base: nat) returns (err: SendResult, attempts: nat, delays: seq<nat>)
    ensures attempts == RoundAttempts(responses, base) && err == RoundError(responses, base)
    ensures 1 <= attempts <= |Intervals| && delays == Intervals[..attempts]
    ensures forall n | base <= n < base + attempts - 1 :: responses(n) == ConnRefused
    ensures attempts < |Intervals| ==> err != ConnRefused
  {
    err := Ok;
    attempts := 0;
    delays := [];
    for i := 0 to |Intervals|
      invariant attempts == i && delays == Intervals[..i]
      invariant forall n | base <= n < base + i :: responses(n) == ConnRefused
      invariant i < |Intervals| ==> AttemptsFrom(responses, base, 0) == AttemptsFrom(responses, base, i)
      invariant i == |Intervals| ==> AttemptsFrom(responses, base, 0) == |Intervals|
      invariant i == |Intervals| ==> err == responses(base + i - 1)
    {
      delays := delays + [Intervals[i]];
      err := responses(base + i);
      attempts := attempts + 1;
      if err != ConnRefused {
        break;
      }
    }
    RoundStops(responses, base);
  }

  /** What a worker returns, how many jobs it took and how many calls it made. */
  datatype WorkerResult = WorkerResult(err: SendResult, jobsTaken: nat, calls: nat)

  /**
   * The worker's outer loop from job `j` on, `calls` calls made so far:
   * `cancelled(j)` says the select picked the cancelled context before job `j`,
   * and after `queued` jobs the channel is closed.
   */
  function RunWorker(responses: nat -> SendResult, cancelled: nat -> bool, queued: nat, j: nat, calls: nat): WorkerResult
    requires j <= queued
    decreases queued - j
  {
    if cancelled(j) || j == queued then WorkerResult(Ok, j, calls)
    else if RoundError(responses, calls) != Ok then
      WorkerResult(RoundError(responses, calls), j + 1, calls + RoundAttempts(responses, calls))
    else RunWorker(responses, cancelled, queued, j + 1, calls + RoundAttempts(responses, calls))
  }

  /**
   * sendWorker: takes jobs until the context is cancelled or the channel is
   * closed (both give nil) and returns the first job's error that is not nil.
   */
  method Worker(responses: nat -> SendResult, cancelled: nat -> bool, queued: nat) returns (r: WorkerResult)
    ensures r == RunWorker(responses, cancelled, queued, 0, 0)
  {
    var j := 0;
    var calls := 0;
    while true
      invariant j <= queued
      invariant RunWorker(responses, cancelled, queued, 0, 0) == RunWorker(responses, cancelled, queued, j, calls)
      decreases queued - j
    {
      if cancelled(j) {
        return WorkerResult(Ok, j, calls);
      }
      if j == queued {
        return WorkerResult(Ok, j, calls);
      }
      var err, attempts, _ := RetryRound(responses, calls);
      calls := calls + attempts;
      j := j + 1;
      if err != Ok {
        return WorkerResult(err, j, calls);
      }
    }
  }

  /**
   * Bounds on a worker run: it takes at most the queued jobs, makes at most four
   * calls a job, and an error it returns is the error of the round it ran last.
   */
  lemma {:induction false} WorkerBounds(responses: nat -> SendResult, cancelled: nat -> bool, queued: nat, j: nat, calls: nat)
    requires j <= queued
    ensures var r := RunWorker(responses, cancelled, queued, j, calls);
      && j <= r.jobsTaken <= queued
      && calls + (r.jobsTaken - j) <= r.calls <= calls + |Intervals| * (r.jobsTaken - j)
      && (r.err != Ok ==> r.jobsTaken > j && exists c: nat :: c + RoundAttempts(responses, c) == r.calls && RoundError(responses, c) == r.err)
    decreases queued - j
  {
    if !(cancelled(j) || j == queued) {
      if RoundError(responses, calls) == Ok {
        WorkerBounds(responses, cancelled, queued, j + 1, calls + RoundAttempts(responses, calls));
      } else {
        assert calls + RoundAttempts(responses, calls) == RunWorker(responses, cancelled, queued, j, calls).calls;
      }
    }
  }

  /**
   * When every call succeeds and the context stays live, the worker takes every
   * queued job with one call each and returns nil once the channel is closed.
   */
  lemma {:induction false} WorkerDeliversAll(responses: nat -> SendResult, cancelled: nat -> bool, queued: nat, j: nat, calls: nat)
    requires j <= queued
    requires forall n :: responses(n) == Ok
    requires forall i :: !cancelled(i)
    ensures RunWorker(responses, cancelled, queued, j, calls) == WorkerResult(Ok, queued, calls + (queued - j))
    decreases queued - j
  {
    if j < queued {
      assert RoundAttempts(responses, calls) == 1;
      WorkerDeliversAll(responses, cancelled, queued, j + 1, calls + 1);
    }
  }

  /**
   * Refusals followed by a success do not stop a worker: when every round ends
   * in success and the context stays live, the worker takes every queued job,
   * with one to four calls each, and returns nil.
   */
  lemma {:induction false} WorkerSucceedsAfterRetries(responses: nat -> SendResult, cancelled: nat -> bool, queued: nat, j: nat, calls: nat)
    requires j <= queued
    requires forall c: nat :: RoundError(responses, c) == Ok
    requires forall i :: !cancelled(i)
    ensures var r := RunWorker(responses, cancelled, queued, j, calls);
      r.err == Ok && r.jobsTaken == queued
    decreases queued - j
  {
    if j < queued {
      WorkerSucceedsAfterRetries(responses, cancelled, queued, j + 1, calls + RoundAttempts(responses, calls));
    }
  }

  /** A cancelled context before the first job: nil, and nothing is sent. */
  lemma WorkerCancelledFirst(responses: nat -> SendResult, cancelled: nat -> bool, queued: nat)
    requires cancelled(0)
    ensures RunWorker(responses, cancelled, queued, 0, 0) == WorkerResult(Ok, 0, 0)
  {
  }

  /** Refused, refused, then success: three calls, sleeps 0, 1 and 3 seconds, and nil. */
  lemma RefusedTwiceThenOk(responses: nat -> SendResult)
    requires responses(0) == ConnRefused && responses(1) == ConnRefused && responses(2) == Ok
    ensures RoundAttempts(responses, 0) == 3 && RoundError(responses, 0) == Ok
    ensures Intervals[..RoundAttempts(responses, 0)] == [0, 1, 3]
  {
  }

  /** Four refusals: four calls, sleeps 0, 1, 3 and 5 seconds, and the refusal is returned. */
  lemma AlwaysRefused(responses: nat -> SendResult, base: nat)
    requires forall n :: responses(n) == ConnRefused
    ensures RoundAttempts(responses, base) == 4 && RoundError(responses, base) == ConnRefused
    ensures Intervals[..RoundAttempts(responses, base)] == [0, 1, 3, 5]
  {
  }

  /** A first answer that is neither success nor a refusal ends the round at once. */
  lemma OtherErrorStopsAtOnce(responses: nat -> SendResult, base: nat)
    requires responses(base) == OtherErr
    ensures RoundAttempts(responses, base) == 1 && RoundError(responses, base) == OtherErr
  {
  }

  /** What one report tick of SendStats does. */
  datatype TickResult =
    | Blocked                                            // no worker ever receives the job
    | Sent(workers: nat, jobs: nat, err: SendResult, calls: nat)

  /**
   * One tick of SendStats: start `rateLimit` workers, push the whole store as one
   * job and close the channel. One worker runs the job's round; the others find
   * the channel closed. With no worker the unbuffered send never completes.
   */
  method Tick(rateLimit: int, responses: nat -> SendResult, base: nat) returns (r: TickResult)
    ensures r.Blocked? <==> rateLimit <= 0
    ensures r.Sent? ==> r.workers == rateLimit && r.jobs == 1
    ensures r.Sent? ==> r.calls == RoundAttempts(responses, base) && r.err == RoundError(responses, base)
  {
    var workers := 0;
    var w := 1;
    while w <= rateLimit
      invariant workers == if rateLimit <= 0 then 0 else w - 1
      invariant rateLimit > 0 ==> 1 <= w <= rateLimit + 1
    {
      workers := workers + 1;
      w := w + 1;
    }
    if workers == 0 {
      return Blocked;
    }
    var err, attempts, _ := RetryRound(responses, base);
    return Sent(workers, 1, err, attempts);
  }
}
