/**
 * The per-client sliding-window rate limiter of the Flask middleware
 * (`_check_rate_limit`), on one client's list of request timestamps.
 * Time is an integer supplied by the caller.
 */
module RateLimit {
  import opened SeqLemmas

  /** Width of the per-minute window and the retry-after of a per-minute denial. */
  const MinuteWindow := 60
  /** Width of the burst window and the retry-after of a burst denial. */
  const BurstWindow := 10
  /** Limits used when the manifest's `rate_limits` leaves them out. */
  const DefaultRequestsPerMinute := 60
  const DefaultBurstLimit := 10

  /** The timestamps `t` of `ts` with `now - t < width`, in their original order. */
  function Window(ts: seq<int>, now: int, width: int): (r: seq<int>)
    ensures |r| <= |ts|
    ensures forall t :: t in r <==> t in ts && now - t < width
  {
    if |ts| == 0 then []
    else if now - ts[0] < width then [ts[0]] + Window(ts[1..], now, width)
    else Window(ts[1..], now, width)
  }

  /** Filtering distributes over concatenation: the survivors keep their relative order. */
  lemma {:induction false} WindowAppend(a: seq<int>, b: seq<int>, now: int, width: int)
    ensures Window(a + b, now, width) == Window(a, now, width) + Window(b, now, width)
  {
    if |a| > 0 {
      assert (a + b)[1..] == a[1..] + b;
      WindowAppend(a[1..], b, now, width);
    } else {
      assert a + b == b;
    }
  }

  /** A list that is already inside the window is kept whole. */
  lemma {:induction false} WindowKeepsAll(ts: seq<int>, now: int, width: int)
    requires forall i :: 0 <= i < |ts| ==> now - ts[i] < width
    ensures Window(ts, now, width) == ts
  {
    if |ts| > 0 {
      WindowKeepsAll(ts[1..], now, width);
    }
  }

  /** A list that is entirely outside the window is dropped. */
  lemma {:induction false} WindowDropsAll(ts: seq<int>, now: int, width: int)
    requires forall i :: 0 <= i < |ts| ==> now - ts[i] >= width
    ensures Window(ts, now, width) == []
  {
    if |ts| > 0 {
      WindowDropsAll(ts[1..], now, width);
    }
  }

  /** Pruning to the wider window first does not change the narrower window. */
  lemma {:induction false} WindowNested(ts: seq<int>, now: int, narrow: int, wide: int)
    requires narrow <= wide
    ensures Window(Window(ts, now, wide), now, narrow) == Window(ts, now, narrow)
  {
    if |ts| > 0 {
      WindowNested(ts[1..], now, narrow, wide);
    }
  }

  datatype Decision = Admit | Deny(error: string, retryAfter: int)

  /** The client's stored list after the check, and the decision. */
  datatype RateCheck = RateCheck(requests: seq<int>, decision: Decision)

  /**
   * One call of the limiter for one client: prune to the minute window, deny if
   * the minute cap is reached, else deny if the burst cap is reached, else
   * append `now`. A denial still stores the pruned list.
   */
  function RateStep(requests: seq<int>, now: int, perMinute: int, burst: int): (r: RateCheck)
    ensures (r.decision == Deny("Rate limit exceeded", MinuteWindow))
              == (|Window(requests, now, MinuteWindow)| >= perMinute)
    ensures (r.decision == Deny("Burst limit exceeded", BurstWindow))
              == (|Window(requests, now, MinuteWindow)| < perMinute
                  && |Window(requests, now, BurstWindow)| >= burst)
    ensures r.decision.Deny? ==> r.requests == Window(requests, now, MinuteWindow)
    ensures r.decision.Admit? ==> r.requests == Window(requests, now, MinuteWindow) + [now]
    ensures forall t :: t in r.requests ==> now - t < MinuteWindow
    ensures r.decision.Admit? ==> |r.requests| <= perMinute
  {
    var pruned := Window(requests, now, MinuteWindow);
    WindowNested(requests, now, BurstWindow, MinuteWindow);
    if |pruned| >= perMinute then RateCheck(pruned, Deny("Rate limit exceeded", MinuteWindow))
    else if |Window(pruned, now, BurstWindow)| >= burst then RateCheck(pruned, Deny("Burst limit exceeded", BurstWindow))
    else RateCheck(pruned + [now], Admit)
  }

  function Max(a: int, b: int): int { if a < b then b else a }

  /** The stored list never grows past the per-minute cap (or past 0 when the cap is not positive). */
  lemma StoredLengthBounded(requests: seq<int>, now: int, perMinute: int, burst: int)
    requires |requests| <= Max(0, perMinute)
    ensures |RateStep(requests, now, perMinute, burst).requests| <= Max(0, perMinute)
  {
  }

  /** Once every earlier request is at least a minute old, a client is admitted again
      and its list restarts from `now`. */
  lemma ResumesAfterWindow(requests: seq<int>, now: int, perMinute: int, burst: int)
    requires forall i :: 0 <= i < |requests| ==> now - requests[i] >= MinuteWindow
    requires perMinute >= 1 && burst >= 1
    ensures RateStep(requests, now, perMinute, burst) == RateCheck([now], Admit)
  {
    WindowDropsAll(requests, now, MinuteWindow);
    WindowNested(requests, now, BurstWindow, MinuteWindow);
  }

  // -----------------------------------------------------------------------
  // Sequences of requests from one client

  datatype Trace = Trace(requests: seq<int>, decisions: seq<Decision>)

  /** Feeds the request times `times`, in order, through the limiter. */
  function Run(requests: seq<int>, times: seq<int>, perMinute: int, burst: int): (r: Trace)
    ensures |r.decisions| == |times|
  {
    if |times| == 0 then Trace(requests, [])
    else
      var prev := Run(requests, times[..|times| - 1], perMinute, burst);
      var step := RateStep(prev.requests, times[|times| - 1], perMinute, burst);
      Trace(step.requests, prev.decisions + [step.decision])
  }

  /** One unfolding of `Run` on request times that end in `now`. */
  lemma RunSnoc(requests: seq<int>, times: seq<int>, now: int, perMinute: int, burst: int)
    ensures var prev := Run(requests, times, perMinute, burst);
            var step := RateStep(prev.requests, now, perMinute, burst);
            Run(requests, times + [now], perMinute, burst) == Trace(step.requests, prev.decisions + [step.decision])
  {
    assert (times + [now])[..|times|] == times;
  }

  /** Under both caps, a request is admitted and appended to the pruned list. */
  lemma AdmitStep(requests: seq<int>, now: int, perMinute: int, burst: int)
    requires |Window(requests, now, MinuteWindow)| < perMinute
    requires |Window(requests, now, BurstWindow)| < burst
    ensures RateStep(requests, now, perMinute, burst) == RateCheck(Window(requests, now, MinuteWindow) + [now], Admit)
  {
  }

  /** Requests that all fall inside one minute, each under the burst cap, are
      admitted one after the other while their count stays within the per-minute
      cap, and the stored list is exactly those requests. */
  lemma {:induction false} RunAdmitsClose(times: seq<int>, k: nat, perMinute: int, burst: int)
    requires k <= |times| && k <= perMinute
    requires forall i, j :: 0 <= i <= j < |times| ==> 0 <= times[j] - times[i] < MinuteWindow
    requires forall j :: 0 <= j < k ==> |Window(times[..j], times[j], BurstWindow)| < burst
    ensures Run([], times[..k], perMinute, burst).requests == times[..k]
    ensures forall i :: 0 <= i < k ==> Run([], times[..k], perMinute, burst).decisions[i] == Admit
  {
    if k > 0 {
      var prefix, now := times[..k - 1], times[k - 1];
      RunAdmitsClose(times, k - 1, perMinute, burst);
      var prev := Run([], prefix, perMinute, burst);
      assert RateStep(prefix, now, perMinute, burst) == RateCheck(prefix + [now], Admit) by {
        WindowKeepsAll(prefix, now, MinuteWindow);
        AdmitStep(prefix, now, perMinute, burst);
      }
      assert times[..k] == prefix + [now] by {
        PrefixSnoc(times, k - 1);
      }
      RunSnoc([], prefix, now, perMinute, burst);
      assert Run([], times[..k], perMinute, burst) == Trace(prefix + [now], prev.decisions + [Admit]);
    }
  }

  /**
   * A client that sends `burst + 1` requests inside one burst window, with the
   * per-minute cap above the burst cap, is admitted `burst` times and then
   * denied with the burst retry-after.
   */
  lemma BurstScenario(times: seq<int>, perMinute: int, burst: nat)
    requires |times| == burst + 1 && burst < perMinute
    requires forall i, j :: 0 <= i <= j < |times| ==> 0 <= times[j] - times[i] < BurstWindow
    ensures forall i :: 0 <= i < burst ==> Run([], times, perMinute, burst).decisions[i] == Admit
    ensures Run([], times, perMinute, burst).decisions[burst] == Deny("Burst limit exceeded", BurstWindow)
  {
    forall j | 0 <= j < burst
      ensures |Window(times[..j], times[j], BurstWindow)| < burst
    {
    }
    RunAdmitsClose(times, burst, perMinute, burst);
    var prefix, now := times[..burst], times[burst];
    assert RateStep(prefix, now, perMinute, burst).decision == Deny("Burst limit exceeded", BurstWindow) by {
      WindowKeepsAll(prefix, now, MinuteWindow);
      WindowKeepsAll(prefix, now, BurstWindow);
    }
    assert times == prefix + [now] by {
      PrefixSnoc(times, burst);
      assert times[..burst + 1] == times;
    }
    RunSnoc([], prefix, now, perMinute, burst);
  }

  /** The consecutive integers `lo, lo + 1, ..., hi - 1`. */
  function Range(lo: int, hi: int): (r: seq<int>)
    requires lo <= hi
    ensures |r| == hi - lo
    ensures forall i :: 0 <= i < |r| ==> r[i] == lo + i
  {
    seq(hi - lo, i => lo + i)
  }

  lemma {:induction false} WindowOfRange(lo: int, hi: int, now: int, width: int)
    requires lo <= hi
    ensures var first := Max(lo, now - width + 1);
            Window(Range(lo, hi), now, width) == if first < hi then Range(first, hi) else []
    decreases hi - lo
  {
    if lo < hi {
      assert Range(lo, hi)[1..] == Range(lo + 1, hi);
      WindowOfRange(lo + 1, hi, now, width);
    }
  }

  /**
   * With the default limits, a client that sends one request per time unit for
   * a whole minute (times 0 to 59) is admitted every time; one more request at
   * time 59 is denied with the per-minute retry-after.
   */
  lemma MinuteScenario()
    ensures forall i :: 0 <= i < 60 ==>
              Run([], Range(0, 60) + [59], DefaultRequestsPerMinute, DefaultBurstLimit).decisions[i] == Admit
    ensures Run([], Range(0, 60) + [59], DefaultRequestsPerMinute, DefaultBurstLimit).decisions[60]
              == Deny("Rate limit exceeded", MinuteWindow)
  {
    var times := Range(0, 60) + [59];
    forall j | 0 <= j < 60
      ensures |Window(times[..j], times[j], BurstWindow)| < DefaultBurstLimit
    {
      assert times[..j] == Range(0, j);
      WindowOfRange(0, j, j, BurstWindow);
    }
    RunAdmitsClose(times, 60, DefaultRequestsPerMinute, DefaultBurstLimit);
    var prefix := times[..60];
    assert prefix == Range(0, 60);
    PrefixSnoc(times, 60);
    assert times[..61] == times;
    RunSnoc([], prefix, 59, DefaultRequestsPerMinute, DefaultBurstLimit);
    WindowOfRange(0, 60, 59, MinuteWindow);
  }
}
