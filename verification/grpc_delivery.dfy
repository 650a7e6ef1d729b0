/**
 * The gRPC agent's worker (internal/agent/grpcagent/grpcagent.go): each job is
 * the whole buffer; its metrics are converted and sent one at a time over a
 * stream, each with the same four-attempt retry as the batch agent.
 *
 * `responses(n)` is what the n-th `stream.Send` call of the run reports.
 */
module GrpcDelivery {
  import opened Wrappers
  import opened Entities
  import opened GrpcConvert
  import Delivery

  type SendResult = Delivery.SendResult

  /** Why a job stopped early: a metric that does not convert, or a metric whose sends failed. */
  datatype JobError = NoError | ConvertFailed(index: nat) | SendFailed(index: nat, result: SendResult)

  /** The error of a job, the messages delivered in order, and the calls made up to its end. */
  datatype JobResult = JobResult(err: JobError, delivered: seq<PbMetric>, calls: nat)

  /** Every record can be converted without a nil dereference. */
  predicate Convertible(metrics: seq<Metrics>) {
    forall k | 0 <= k < |metrics| :: PointerSet(metrics[k])
  }

  /** The job from metric `i` on, with `calls` calls made before it. */
  function RunJob(metrics: seq<Metrics>, responses: nat -> SendResult, i: nat, calls: nat): JobResult
    requires i <= |metrics| && Convertible(metrics)
    decreases |metrics| - i
  {
    if i == |metrics| then JobResult(NoError, [], calls)
    else
      match ConvertFromMetricsToGRPC(metrics[i])
      case None => JobResult(ConvertFailed(i), [], calls)
      case Some(pb) =>
        var n := Delivery.RoundAttempts(responses, calls);
        if Delivery.RoundError(responses, calls) != Delivery.Ok then JobResult(SendFailed(i, Delivery.RoundError(responses, calls)), [], calls + n)
        else
          var rest := RunJob(metrics, responses, i + 1, calls + n);
          JobResult(rest.err, [pb] + rest.delivered, rest.calls)
  }

  /** One job of sendWorker: convert, retry, and abort at the first failure. */
  method SendJob(metrics: seq<Metrics>, responses: nat -> SendResult, base: nat) returns (r: JobResult)
    requires Convertible(metrics)
    ensures r == RunJob(metrics, responses, 0, base)
  {
    var delivered: seq<PbMetric> := [];
    var calls := base;
    for i := 0 to |metrics|
      invariant var rest := RunJob(metrics, responses, i, calls);
        RunJob(metrics, responses, 0, base) == JobResult(rest.err, delivered + rest.delivered, rest.calls)
    {
      var pb := ConvertFromMetricsToGRPC(metrics[i]);
      if pb.None? {
        return JobResult(ConvertFailed(i), delivered, calls);
      }
      var err, attempts, _ := Delivery.RetryRound(responses, calls);
      calls := calls + attempts;
      if err != Delivery.Ok {
        return JobResult(SendFailed(i, err), delivered, calls);
      }
      delivered := delivered + [pb.value];
    }
    return JobResult(NoError, delivered, calls);
  }

  /**
   * What a job from metric `i` on delivers: the converted metrics in order, all
   * of them exactly when there is no error; an error names the metric right
   * after the delivered ones.
   */
  lemma {:induction false} JobDelivers(metrics: seq<Metrics>, responses: nat -> SendResult, i: nat, calls: nat)
    requires i <= |metrics| && Convertible(metrics)
    ensures var r := RunJob(metrics, responses, i, calls);
      && i + |r.delivered| <= |metrics|
      && (forall k | 0 <= k < |r.delivered| :: Some(r.delivered[k]) == ConvertFromMetricsToGRPC(metrics[i + k]))
      && (r.err == NoError <==> i + |r.delivered| == |metrics|)
      && (r.err.ConvertFailed? ==> r.err.index == i + |r.delivered| && ConvertFromMetricsToGRPC(metrics[r.err.index]).None?)
      && (r.err.SendFailed? ==> r.err.index == i + |r.delivered| && r.err.result != Delivery.Ok)
    decreases |metrics| - i
  {
    if i < |metrics| && ConvertFromMetricsToGRPC(metrics[i]).Some? && Delivery.RoundError(responses, calls) == Delivery.Ok {
      var n := Delivery.RoundAttempts(responses, calls);
      JobDelivers(metrics, responses, i + 1, calls + n);
      var rest := RunJob(metrics, responses, i + 1, calls + n);
      var r := RunJob(metrics, responses, i, calls);
      assert r.delivered == [ConvertFromMetricsToGRPC(metrics[i]).value] + rest.delivered;
      forall k | 0 <= k < |r.delivered| ensures Some(r.delivered[k]) == ConvertFromMetricsToGRPC(metrics[i + k]) {
        if k > 0 {
          assert r.delivered[k] == rest.delivered[k - 1];
        }
      }
    }
  }

  /**
   * The calls a job from metric `i` on makes: at least one and at most four for
   * each metric it sent or failed to send, none for a metric that did not convert.
   */
  lemma {:induction false} JobCalls(metrics: seq<Metrics>, responses: nat -> SendResult, i: nat, calls: nat)
    requires i <= |metrics| && Convertible(metrics)
    ensures var r := RunJob(metrics, responses, i, calls);
      var tried := |r.delivered| + if r.err.SendFailed? then 1 else 0;
      calls + tried <= r.calls <= calls + |Delivery.Intervals| * tried
    decreases |metrics| - i
  {
    if i < |metrics| && ConvertFromMetricsToGRPC(metrics[i]).Some? && Delivery.RoundError(responses, calls) == Delivery.Ok {
      JobCalls(metrics, responses, i + 1, calls + Delivery.RoundAttempts(responses, calls));
    }
  }

  /** A job never makes more than four calls a metric. */
  lemma JobCallBound(metrics: seq<Metrics>, responses: nat -> SendResult, base: nat)
    requires Convertible(metrics)
    ensures RunJob(metrics, responses, 0, base).calls <= base + |Delivery.Intervals| * |metrics|
  {
    JobDelivers(metrics, responses, 0, base);
    JobCalls(metrics, responses, 0, base);
  }

  /** With every call answered and every record of a known type, the whole buffer is delivered, one call a metric. */
  lemma {:induction false} JobDeliversAll(metrics: seq<Metrics>, responses: nat -> SendResult, i: nat, calls: nat)
    requires i <= |metrics| && Convertible(metrics)
    requires forall k | 0 <= k < |metrics| :: metrics[k].mType == "gauge" || metrics[k].mType == "counter"
    requires forall n :: responses(n) == Delivery.Ok
    ensures var r := RunJob(metrics, responses, i, calls);
      r.err == NoError && |r.delivered| == |metrics| - i && r.calls == calls + |metrics| - i
    decreases |metrics| - i
  {
    if i < |metrics| {
      assert Delivery.RoundAttempts(responses, calls) == 1;
      JobDeliversAll(metrics, responses, i + 1, calls + 1);
    }
  }

  /** A stream worker's result: its error, the jobs it took and the calls it made. */
  datatype StreamResult = StreamResult(err: JobError, jobsTaken: nat, calls: nat)

  /** The worker's channel loop from job `j` on; `cancelled(j)` is the select choosing the context. */
  function RunStream(jobs: seq<seq<Metrics>>, responses: nat -> SendResult, cancelled: nat -> bool, j: nat, calls: nat): StreamResult
    requires j <= |jobs| && forall k | 0 <= k < |jobs| :: Convertible(jobs[k])
    decreases |jobs| - j
  {
    if cancelled(j) || j == |jobs| then StreamResult(NoError, j, calls)
    else
      var r := RunJob(jobs[j], responses, 0, calls);
      if r.err != NoError then StreamResult(r.err, j + 1, r.calls)
      else RunStream(jobs, responses, cancelled, j + 1, r.calls)
  }

  /** sendWorker: runs jobs until the context is cancelled or the channel is closed, or a job fails. */
  method Worker(jobs: seq<seq<Metrics>>, responses: nat -> SendResult, cancelled: nat -> bool) returns (r: StreamResult)
    requires forall k | 0 <= k < |jobs| :: Convertible(jobs[k])
    ensures r == RunStream(jobs, responses, cancelled, 0, 0)
  {
    var j := 0;
    var calls := 0;
    while true
      invariant j <= |jobs|
      invariant RunStream(jobs, responses, cancelled, 0, 0) == RunStream(jobs, responses, cancelled, j, calls)
      decreases |jobs| - j
    {
      if cancelled(j) || j == |jobs| {
        return StreamResult(NoError, j, calls);
      }
      var job := SendJob(jobs[j], responses, calls);
      calls := job.calls;
      j := j + 1;
      if job.err != NoError {
        return StreamResult(job.err, j, calls);
      }
    }
  }

  /**
   * With every call answered, every record of a known type and the context
   * live, the stream worker takes every job and returns nil once the channel
   * is closed.
   */
  lemma {:induction false} StreamDeliversAll(jobs: seq<seq<Metrics>>, responses: nat -> SendResult, cancelled: nat -> bool, j: nat, calls: nat)
    requires j <= |jobs| && forall k | 0 <= k < |jobs| :: Convertible(jobs[k])
    requires forall k, m | 0 <= k < |jobs| && 0 <= m < |jobs[k]| :: jobs[k][m].mType == "gauge" || jobs[k][m].mType == "counter"
    requires forall n :: responses(n) == Delivery.Ok
    requires forall i :: !cancelled(i)
    ensures var r := RunStream(jobs, responses, cancelled, j, calls);
      r.err == NoError && r.jobsTaken == |jobs| && r.calls >= calls
    decreases |jobs| - j
  {
    if j < |jobs| {
      JobDeliversAll(jobs[j], responses, 0, calls);
      StreamDeliversAll(jobs, responses, cancelled, j + 1, RunJob(jobs[j], responses, 0, calls).calls);
    }
  }

  /**
   * Refusals followed by a success do not stop the stream worker: when every
   * job, whatever calls came before it, ends without an error and the context
   * stays live, the worker takes every job and returns nil.
   */
  lemma {:induction false} StreamSucceedsAfterRetries(jobs: seq<seq<Metrics>>, responses: nat -> SendResult, cancelled: nat -> bool, j: nat, calls: nat)
    requires j <= |jobs| && forall k | 0 <= k < |jobs| :: Convertible(jobs[k])
    requires forall k, c: nat | 0 <= k < |jobs| :: RunJob(jobs[k], responses, 0, c).err == NoError
    requires forall i :: !cancelled(i)
    ensures var r := RunStream(jobs, responses, cancelled, j, calls);
      r.err == NoError && r.jobsTaken == |jobs|
    decreases |jobs| - j
  {
    if j < |jobs| {
      StreamSucceedsAfterRetries(jobs, responses, cancelled, j + 1, RunJob(jobs[j], responses, 0, calls).calls);
    }
  }

  /** The agent's own buffer always converts: its records are well formed. */
  lemma AgentRecordsConvert(metrics: seq<Metrics>)
    requires forall k | 0 <= k < |metrics| ::
      || (metrics[k].mType == "gauge" && metrics[k].value.Some?)
      || (metrics[k].mType == "counter" && metrics[k].delta.Some?)
    ensures Convertible(metrics)
    ensures forall k | 0 <= k < |metrics| :: ConvertFromMetricsToGRPC(metrics[k]).Some?
  {
  }
}
