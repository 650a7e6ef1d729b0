/**
 * The earliest delivery loop (internal/agent/routine.go, SendStats): one batch
 * send per tick, retried after 1, 3 and 5 seconds only when the first send was
 * refused. Nothing is returned; failures are only logged.
 */
module LegacyDelivery {
  import Delivery

  type SendResult = Delivery.SendResult

  /** The pause in seconds before each retry. */
  const RetryIntervals: seq<nat> := [1, 3, 5]

  /** The log line a tick leaves, with the error it reports. */
  datatype LogEntry = NoLog | RetriableLogged(err: SendResult) | FailedLogged(err: SendResult)

  /** What one tick did: the calls it made, the pauses it took and what it logged. */
  datatype TickReport = TickReport(calls: nat, delays: seq<nat>, log: LogEntry)

  /**
   * One tick, the first call having index `base`. The retry loop's own errors
   * are scoped to it, so the log line always carries the first error.
   */
  method Tick(responses: nat -> SendResult, base: nat) returns (r: TickReport)
    // success at once: one call and nothing logged
    ensures responses(base) == Delivery.Ok ==> r == TickReport(1, [], NoLog)
    // any other error: logged, never retried
    ensures responses(base) == Delivery.OtherErr ==> r == TickReport(1, [], FailedLogged(Delivery.OtherErr))
    // a refusal: retried like the newer round, and the refusal is logged even when a retry succeeds
    ensures responses(base) == Delivery.ConnRefused ==>
      && r.calls == Delivery.RoundAttempts(responses, base)
      && r.delays == RetryIntervals[..r.calls - 1]
      && r.log == RetriableLogged(Delivery.ConnRefused)
    // on the same answers, the newer round's pauses are these with a zero-second pause in front
    ensures responses(base) == Delivery.ConnRefused ==> [0] + r.delays == Delivery.Intervals[..r.calls]
    ensures 1 <= r.calls <= 1 + |RetryIntervals|
  {
    var err := responses(base);
    if err == Delivery.Ok {
      return TickReport(1, [], NoLog);
    }
    if err != Delivery.ConnRefused {
      return TickReport(1, [], FailedLogged(err));
    }
    var calls := 1;
    var delays: seq<nat> := [];
    for i := 0 to |RetryIntervals|
      invariant calls == i + 1 && delays == RetryIntervals[..i]
      invariant [0] + delays == Delivery.Intervals[..calls]
      invariant i + 1 < |Delivery.Intervals| ==>
        Delivery.AttemptsFrom(responses, base, 0) == Delivery.AttemptsFrom(responses, base, i + 1)
      invariant i + 1 == |Delivery.Intervals| ==> Delivery.AttemptsFrom(responses, base, 0) == |Delivery.Intervals|
    {
      delays := delays + [RetryIntervals[i]];
      var retryErr := responses(base + calls);
      calls := calls + 1;
      if retryErr != Delivery.ConnRefused {
        break;
      }
    }
    return TickReport(calls, delays, RetriableLogged(err));
  }

  /**
   * A refused first send followed by a success: by `Tick`'s contract that tick
   * makes two calls, pauses once for 1 second, and still logs the refusal.
   */
  lemma RefusedThenOkRetriesOnce(responses: nat -> SendResult)
    requires responses(0) == Delivery.ConnRefused && responses(1) == Delivery.Ok
    ensures Delivery.RoundAttempts(responses, 0) == 2 && RetryIntervals[..Delivery.RoundAttempts(responses, 0) - 1] == [1]
  {
  }
}
