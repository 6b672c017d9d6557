/** The retry loop around every API call and ingest: WithRetry and its back-off. */
module RateLimit {
  import opened Errors
  import opened Backoff

  datatype OperationType = ReadOperation | WriteOperation

  /** The handler's configuration; durations are nanoseconds. */
  datatype Limits = Limits(maxRetries: int, maxWait: int64, readBase: int64, writeBase: int64) {
    function BaseWait(op: OperationType): int64 {
      if op.WriteOperation? then writeBase else readBase
    }
  }

  const SECOND: int64 := 1_000_000_000
  const MILLISECOND: int64 := 1_000_000

  /** NewRateLimitHandler's durations; the retry cap comes from the environment. */
  function StockLimits(maxRetries: int): Limits {
    Limits(maxRetries, 30 * SECOND, 500 * MILLISECOND, SECOND)
  }

  /** One call of the operation: the error it returned, and whether the context is found cancelled
      in the wait that follows, if one follows. */
  datatype Attempt = Attempt(err: Option<GoError>, cancelled: bool)

  /** What WithRetry does with a returned error. */
  datatype Verdict =
    | Final                        // nil, not an API error, or a suppressed one: WithRetry returns nil
    | Limited(reset: Option<int>)  // 429
    | Stutter                      // any other API error: the loop goes round unchanged

  function Classify(err: Option<GoError>): Verdict {
    if err.None? then Final
    else if !err.value.Xrpc? then Final
    else if SuppressATProtoErr(err.value) then Final
    else if err.value.status == STATUS_TOO_MANY_REQUESTS then Limited(err.value.reset)
    else Stutter
  }

  datatype Result =
    | ReturnedNil
    | Cancelled
    | Exhausted(afterRetries: bool, cause: GoError)
    | Pending                      // the script ended before WithRetry returned

  /** What one WithRetry call does: its result, how often it called the operation, the waits it sat out. */
  datatype Outcome = Outcome(result: Result, calls: nat, waits: seq<int64>) {
    function After(moreCalls: nat, moreWaits: seq<int64>): Outcome {
      Outcome(result, moreCalls + calls, moreWaits + waits)
    }
  }

  /** time.Until saturates. */
  function Clamp64(x: int): int64 {
    if x < -TWO_63 then -TWO_63 else if x >= TWO_63 then TWO_63 - 1 else x
  }

  function WaitTime(maxWait: int64, base: int64, attempt: nat, reset: Option<int>): int64 {
    match reset
    case Some(left) => Clamp64(left)
    case None =>
      var backoff := MachineBackoff(base, attempt);
      if backoff > maxWait then maxWait else backoff
  }

  /** The loop's guard for giving up. */
  predicate Spent(l: Limits, attempt: nat, waitTime: int64) {
    (l.maxRetries > 0 && attempt >= l.maxRetries) || (l.maxWait > 0 && waitTime >= l.maxWait)
  }

  /** Recursive specification: `attempt` waits are behind us and the budget is not spent. */
  function Retry(l: Limits, base: int64, attempt: nat, script: seq<Attempt>): Outcome
    decreases |script|
  {
    if script == [] then Outcome(Pending, 0, [])
    else
      match Classify(script[0].err)
      case Final => Outcome(ReturnedNil, 1, [])
      case Stutter => Retry(l, base, attempt, script[1..]).After(1, [])
      case Limited(reset) =>
        if script[0].cancelled then Outcome(Cancelled, 1, [])
        else
          var w := WaitTime(l.maxWait, base, attempt, reset);
          if Spent(l, attempt + 1, w) then Outcome(Exhausted(l.maxRetries > 0, script[0].err.value), 1, [w])
          else Retry(l, base, attempt + 1, script[1..]).After(1, [w])
  }

  /** One turn of the specification, seen from the middle of a script. */
  lemma RetryUnfolds(l: Limits, base: int64, attempt: nat, script: seq<Attempt>, calls: nat, waits: seq<int64>)
    requires calls < |script|
    ensures
      var here := Retry(l, base, attempt, script[calls..]).After(calls, waits);
      var a := script[calls];
      match Classify(a.err)
      case Final => here == Outcome(ReturnedNil, calls + 1, waits)
      case Stutter => here == Retry(l, base, attempt, script[calls + 1..]).After(calls + 1, waits)
      case Limited(reset) =>
        var w := WaitTime(l.maxWait, base, attempt, reset);
        here == if a.cancelled then Outcome(Cancelled, calls + 1, waits)
                else if Spent(l, attempt + 1, w)
                then Outcome(Exhausted(l.maxRetries > 0, a.err.value), calls + 1, waits + [w])
                else Retry(l, base, attempt + 1, script[calls + 1..]).After(calls + 1, waits + [w])
  {
    assert script[calls..][1..] == script[calls + 1..];
    var a := script[calls];
    if Classify(a.err).Limited? {
      var w := WaitTime(l.maxWait, base, attempt, Classify(a.err).reset);
      var rest := Retry(l, base, attempt + 1, script[calls + 1..]);
      assert waits + ([w] + rest.waits) == waits + [w] + rest.waits;
    }
  }

  /** What one call decides, error by error: nil for no error, an error that is not an API error and one about a
      repository that is gone; a wait, the end of the budget or the cancellation for a 429; another turn for any other
      API error. */
  lemma OneCallDecides(l: Limits, base: int64, n: nat, a: Attempt, rest: seq<Attempt>)
    ensures
      var o := Retry(l, base, n, [a] + rest);
      if || a.err.None? || !a.err.value.Xrpc?
         || a.err.value.text in {"RepoTakendown", "RepoDeactivated", "XRPC ERROR 400: NotFound: Repo not found"}
         || WrapsGoneRepo(a.err.value)
      then o == Outcome(ReturnedNil, 1, [])
      else if a.err.value.status != 429
      then
        var p := Retry(l, base, n, rest);
        o == Outcome(p.result, 1 + p.calls, p.waits)
      else if a.cancelled then o == Outcome(Cancelled, 1, [])
      else
        var hint := a.err.value.reset;
        var w := if hint.Some? then (if hint.value > 0x7fff_ffff_ffff_ffff then 0x7fff_ffff_ffff_ffff
                                     else if hint.value < -0x8000_0000_0000_0000 then -0x8000_0000_0000_0000
                                     else hint.value)
                 else if MachineBackoff(base, n) < l.maxWait then MachineBackoff(base, n) else l.maxWait;
        if (l.maxRetries > 0 && n + 1 >= l.maxRetries) || (l.maxWait > 0 && w >= l.maxWait)
        then o == Outcome(Exhausted(l.maxRetries > 0, a.err.value), 1, [w])
        else
          var p := Retry(l, base, n + 1, rest);
          o == Outcome(p.result, 1 + p.calls, [w] + p.waits)
  {
    if a.err.Some? { SuppressedIff(a.err.value); }
    assert ([a] + rest)[1..] == rest;
  }

  class RateLimitHandler {
    const limits: Limits
    // metric counters
    var rateLimitHits: nat
    var retryAttempts: nat
    var failuresMaxAttempts: nat
    var failuresMaxWaitTime: nat

    constructor (limits: Limits)
      ensures this.limits == limits
      ensures rateLimitHits == retryAttempts == failuresMaxAttempts == failuresMaxWaitTime == 0
    {
      this.limits := limits;
      rateLimitHits, retryAttempts, failuresMaxAttempts, failuresMaxWaitTime := 0, 0, 0, 0;
    }

    method CalculateWaitTime(reset: Option<int>, attempt: nat, op: OperationType) returns (wait: int64)
      ensures wait == WaitTime(limits.maxWait, limits.BaseWait(op), attempt, reset)
      ensures reset.Some? && -TWO_63 <= reset.value < TWO_63 ==> wait == reset.value
      ensures
        var base := match op case ReadOperation => limits.readBase case WriteOperation => limits.writeBase;
        && (reset.None? ==> wait <= limits.maxWait)
        && (reset.None? && base >= 1 && Doubled(base, attempt) <= limits.maxWait ==> wait == Doubled(base, attempt))
    {
      if reset.Some? {
        return Clamp64(reset.value);
      }
      var baseWait := limits.readBase;
      if op == WriteOperation {
        baseWait := limits.writeBase;
      }
      var backoff: int64 := MachineBackoff(baseWait, attempt);
      if baseWait >= 1 && Doubled(baseWait, attempt) < TWO_63 {
        MachineBackoffExact(baseWait, attempt);
      }
      if backoff > limits.maxWait {
        backoff := limits.maxWait;
      }
      return backoff;
    }

    /** `script` holds the outcomes of the successive calls of the operation. */
    method WithRetry(op: OperationType, script: seq<Attempt>) returns (result: Result, calls: nat, waits: seq<int64>)
      modifies this
      ensures Outcome(result, calls, waits) == Retry(limits, limits.BaseWait(op), 0, script)
      ensures rateLimitHits == old(rateLimitHits) + |waits| + (if result.Cancelled? then 1 else 0)
      ensures retryAttempts == old(retryAttempts) + 2 * |waits| + (if result.Cancelled? then 1 else 0)
      ensures failuresMaxAttempts
           == old(failuresMaxAttempts) + (if result.Exhausted? && limits.maxRetries > 0 then 1 else 0)
      ensures failuresMaxWaitTime
           == old(failuresMaxWaitTime) + (if result.Exhausted? && limits.maxRetries <= 0 then 1 else 0)
    {
      ghost var base := limits.BaseWait(op);
      ghost var spec := Retry(limits, base, 0, script);
      var err: Option<GoError> := None;
      var waitTime: int64 := 0;
      var attempt: nat := 0;
      calls, waits := 0, [];
      while true
        invariant calls <= |script| && attempt == |waits|
        invariant rateLimitHits == old(rateLimitHits) + attempt
        invariant retryAttempts == old(retryAttempts) + 2 * attempt
        invariant failuresMaxAttempts == old(failuresMaxAttempts)
        invariant failuresMaxWaitTime == old(failuresMaxWaitTime)
        invariant !Spent(limits, attempt, waitTime) ==>
                    spec == Retry(limits, base, attempt, script[calls..]).After(calls, waits)
        invariant Spent(limits, attempt, waitTime) ==>
                    err.Some? && spec == Outcome(Exhausted(limits.maxRetries > 0, err.value), calls, waits)
        decreases |script| - calls
      {
        if (limits.maxRetries > 0 && attempt >= limits.maxRetries)
           || (limits.maxWait > 0 && waitTime >= limits.maxWait)
        {
          break;
        }
        if calls == |script| {
          return Pending, calls, waits;
        }
        err := script[calls].err;
        var cancelled := script[calls].cancelled;
        RetryUnfolds(limits, base, attempt, script, calls, waits);
        calls := calls + 1;
        if err.None? || !err.value.Xrpc? || SuppressATProtoErr(err.value) {
          return ReturnedNil, calls, waits;
        }
        if err.value.status == STATUS_TOO_MANY_REQUESTS {
          rateLimitHits := rateLimitHits + 1;
          waitTime := CalculateWaitTime(err.value.reset, attempt, op);
          retryAttempts := retryAttempts + 1;
          if cancelled {
            return Cancelled, calls, waits;
          }
          waits := waits + [waitTime];
          attempt := attempt + 1;
          retryAttempts := retryAttempts + 1;
        }
      }
      result := Exhausted(limits.maxRetries > 0, err.value);
      if limits.maxRetries > 0 {
        failuresMaxAttempts := failuresMaxAttempts + 1;
      } else {
        failuresMaxWaitTime := failuresMaxWaitTime + 1;
      }
    }
  }

  // ---- What every run does

  /** The loop goes round again after this attempt. */
  predicate GoesOn(l: Limits, base: int64, attempt: nat, a: Attempt) {
    match Classify(a.err)
    case Final => false
    case Stutter => true
    case Limited(reset) => !a.cancelled && !Spent(l, attempt + 1, WaitTime(l.maxWait, base, attempt, reset))
  }

  function NextAttempt(attempt: nat, a: Attempt): nat {
    if Classify(a.err).Stutter? then attempt else attempt + 1
  }

  /** A run that returns called the operation at least once and stopped at its last call; an exhausted run
      wraps the 429 of that call, and a nil result means that call was final. */
  lemma {:induction false} LastCallDecides(l: Limits, base: int64, attempt: nat, script: seq<Attempt>)
    ensures
      var o := Retry(l, base, attempt, script);
      && o.calls <= |script|
      && (o.result == Pending ==> o.calls == |script|)
      && (o.result != Pending ==>
            && o.calls >= 1
            && var last := script[o.calls - 1];
               match o.result
               case ReturnedNil => Classify(last.err).Final?
               case Cancelled => Classify(last.err).Limited? && last.cancelled
               case Exhausted(afterRetries, cause) =>
                 && last.err == Some(cause) && Classify(last.err).Limited? && cause.status == 429
                 && |o.waits| > 0 && Spent(l, attempt + |o.waits|, o.waits[|o.waits| - 1])
                 && afterRetries == (l.maxRetries > 0)
               case Pending => true)
    decreases |script|
  {
    if script != [] && GoesOn(l, base, attempt, script[0]) {
      LastCallDecides(l, base, NextAttempt(attempt, script[0]), script[1..]);
    }
  }

  function Stutters(script: seq<Attempt>): nat {
    if script == [] then 0
    else (if Classify(script[0].err).Stutter? then 1 else 0) + Stutters(script[1..])
  }

  lemma StuttersFirst(script: seq<Attempt>, n: nat)
    requires 0 < n <= |script|
    ensures Stutters(script[..n])
         == (if Classify(script[0].err).Stutter? then 1 else 0) + Stutters(script[1..][..n - 1])
  {
    assert script[..n][1..] == script[1..][..n - 1];
  }

  /** Every call before the last is a 429 that was waited out or a stutter; each 429 has one wait. */
  lemma {:induction false} EarlierCallsRetry(l: Limits, base: int64, attempt: nat, script: seq<Attempt>)
    ensures
      var o := Retry(l, base, attempt, script);
      && o.calls <= |script|
      && (forall i :: 0 <= i < o.calls - 1 ==> !Classify(script[i].err).Final?)
      && |o.waits| + Stutters(script[..o.calls]) + (if o.result.ReturnedNil? || o.result.Cancelled? then 1 else 0)
         == o.calls
    decreases |script|
  {
    LastCallDecides(l, base, attempt, script);
    if script == [] {
    } else {
      StuttersFirst(script, Retry(l, base, attempt, script).calls);
      if GoesOn(l, base, attempt, script[0]) {
        EarlierCallsRetry(l, base, NextAttempt(attempt, script[0]), script[1..]);
      }
    }
  }

  /** The script without its stutters. */
  function Destutter(script: seq<Attempt>): seq<Attempt> {
    if script == [] then []
    else if Classify(script[0].err).Stutter? then Destutter(script[1..])
    else [script[0]] + Destutter(script[1..])
  }

  lemma DestutterFirst(script: seq<Attempt>)
    requires script != []
    ensures Destutter(script)
         == if Classify(script[0].err).Stutter? then Destutter(script[1..]) else [script[0]] + Destutter(script[1..])
    ensures !Classify(script[0].err).Stutter? ==>
              Destutter(script)[0] == script[0] && Destutter(script)[1..] == Destutter(script[1..])
  {
  }

  /** A turn that goes on adds its call, and its wait if it was a 429. */
  lemma RetryGoesOn(l: Limits, base: int64, attempt: nat, script: seq<Attempt>)
    requires script != [] && GoesOn(l, base, attempt, script[0])
    ensures
      var a := script[0];
      var rest := Retry(l, base, NextAttempt(attempt, a), script[1..]);
      Retry(l, base, attempt, script)
      == rest.After(1, if Classify(a.err).Stutter? then []
                       else [WaitTime(l.maxWait, base, attempt, Classify(a.err).reset)])
  {
  }

  /** API errors other than 429 change neither the result nor the waits; they only cost their own calls. */
  lemma {:induction false} StutteringIsInvisible(l: Limits, base: int64, attempt: nat, script: seq<Attempt>)
    ensures
      var o := Retry(l, base, attempt, script);
      var p := Retry(l, base, attempt, Destutter(script));
      && o.result == p.result && o.waits == p.waits
      && o.calls <= |script| && o.calls == p.calls + Stutters(script[..o.calls])
    decreases |script|
  {
    LastCallDecides(l, base, attempt, script);
    if script == [] {
    } else {
      var a := script[0];
      StuttersFirst(script, Retry(l, base, attempt, script).calls);
      DestutterFirst(script);
      if GoesOn(l, base, attempt, a) {
        StutteringIsInvisible(l, base, NextAttempt(attempt, a), script[1..]);
        RetryGoesOn(l, base, attempt, script);
        if !Classify(a.err).Stutter? {
          RetryGoesOn(l, base, attempt, Destutter(script));
        }
      }
    }
  }

  /** With a retry cap R, R outcomes other than stutters are enough: the run has returned. */
  lemma {:induction false} CappedRunsReturn(l: Limits, base: int64, attempt: nat, script: seq<Attempt>)
    requires l.maxRetries > 0 && attempt < l.maxRetries
    requires |Destutter(script)| >= l.maxRetries - attempt
    ensures
      var o := Retry(l, base, attempt, script);
      && o.result != Pending
      && o.calls <= |script|
      && o.calls - Stutters(script[..o.calls]) <= l.maxRetries - attempt
    decreases |script|
  {
    LastCallDecides(l, base, attempt, script);
    if script == [] {
    } else {
      StuttersFirst(script, Retry(l, base, attempt, script).calls);
      if Classify(script[0].err).Stutter? {
        CappedRunsReturn(l, base, attempt, script[1..]);
      } else {
        assert Destutter(script)[1..] == Destutter(script[1..]);
        if attempt + 1 < l.maxRetries {
          CappedRunsReturn(l, base, attempt + 1, script[1..]);
        }
      }
    }
  }

  ghost predicate Hinted(script: seq<Attempt>) {
    forall a <- script :: Classify(a.err).Limited? && Classify(a.err).reset.Some? && !a.cancelled
  }

  ghost predicate HintFree(script: seq<Attempt>) {
    forall a <- script :: Classify(a.err).Limited? ==> Classify(a.err).reset.None?
  }

  ghost predicate AllHintFree429(script: seq<Attempt>) {
    forall a <- script :: Classify(a.err) == Limited(None) && !a.cancelled
  }

  /** Without a retry cap, a server that keeps sending 429s with hints ends the loop
      only by sending one hint as long as the maximum wait. */
  lemma {:induction false} UncappedHintedReturnsIff(l: Limits, base: int64, attempt: nat, script: seq<Attempt>)
    requires l.maxRetries <= 0 && Hinted(script)
    ensures Retry(l, base, attempt, script).result != Pending
       <==> l.maxWait > 0 && exists i :: 0 <= i < |script| && Clamp64(Classify(script[i].err).reset.value) >= l.maxWait
    decreases |script|
  {
    if script == [] {
    } else {
      var rest := script[1..];
      assert Hinted(rest) by { forall a <- rest ensures a in script {} }
      UncappedHintedReturnsIff(l, base, attempt + 1, rest);
      forall i | 0 < i < |script| ensures script[i] == rest[i - 1] {}
      if i :| 0 <= i < |rest| && Clamp64(Classify(rest[i].err).reset.value) >= l.maxWait {
        assert script[i + 1] == rest[i];
      }
      assert script[0] in script;
    }
  }

  lemma TailHintFree(script: seq<Attempt>)
    requires script != [] && AllHintFree429(script)
    ensures AllHintFree429(script[1..])
  {
    forall a <- script[1..] ensures a in script {}
  }

  /** The machine's back-off after i waits is as long as the maximum wait. */
  predicate ReachesMaximum(l: Limits, base: int64, i: nat) {
    l.maxWait > 0 && MachineBackoff(base, i) >= l.maxWait
  }

  /** Without a retry cap, hint-free 429s end the loop at the first back-off that reaches the maximum wait. */
  lemma {:induction false} HintFreeReturnsIff(l: Limits, base: int64, n: nat, script: seq<Attempt>)
    requires l.maxRetries <= 0 && AllHintFree429(script)
    ensures
      var o := Retry(l, base, n, script);
      && (o.result != Pending <==> exists i :: n <= i < n + |script| && ReachesMaximum(l, base, i))
      && (o.result != Pending ==> o.calls >= 1 && ReachesMaximum(l, base, n + o.calls - 1)
                                  && forall i :: n <= i < n + o.calls - 1 ==> !ReachesMaximum(l, base, i))
    decreases |script|
  {
    if script == [] {
    } else {
      assert script[0] in script;
      TailHintFree(script);
      if ReachesMaximum(l, base, n) {
        assert Retry(l, base, n, script).result.Exhausted? && Retry(l, base, n, script).calls == 1;
      } else {
        HintFreeReturnsIff(l, base, n + 1, script[1..]);
        assert Retry(l, base, n, script).calls == 1 + Retry(l, base, n + 1, script[1..]).calls;
      }
    }
  }

  /** So, whatever the durations are, 64 calls decide: from the 64th doubling on the machine's back-off is nothing. */
  lemma UncappedHintFreeReturnsIff(l: Limits, base: int64, script: seq<Attempt>)
    requires l.maxRetries <= 0 && AllHintFree429(script) && |script| >= 64
    ensures
      var o := Retry(l, base, 0, script);
      && (o.result != Pending <==> exists i :: 0 <= i < 64 && ReachesMaximum(l, base, i))
      && (o.result != Pending ==> 1 <= o.calls <= 64 && ReachesMaximum(l, base, o.calls - 1)
                                  && forall i :: 0 <= i < o.calls - 1 ==> !ReachesMaximum(l, base, i))
  {
    HintFreeReturnsIff(l, base, 0, script);
    forall i: nat | i >= 64 ensures !ReachesMaximum(l, base, i) { MachineBackoffVanishes(base, i); }
  }

  // ---- Exact waits and call counts of the exponential back-off

  /** The exact, unbounded-integer wait: the server's hint, or base * 2^n capped at the maximum. */
  function IdealWait(maxWait: int64, base: int64, n: nat, reset: Option<int>): int {
    match reset
    case Some(left) => Clamp64(left)
    case None => if Doubled(base, n) > maxWait then maxWait else Doubled(base, n)
  }

  /** The hints of the 429s of a script, in order. */
  function Resets(script: seq<Attempt>): seq<Option<int>> {
    if script == [] then []
    else
      match Classify(script[0].err)
      case Limited(reset) => [reset] + Resets(script[1..])
      case _ => Resets(script[1..])
  }

  ghost predicate WaitsAre(maxWait: int64, base: int64, attempt: nat, waits: seq<int64>, resets: seq<Option<int>>) {
    && |waits| <= |resets|
    && forall j :: 0 <= j < |waits| ==> waits[j] == IdealWait(maxWait, base, attempt + j, resets[j])
  }

  ghost predicate ExactWaits(l: Limits, base: int64, attempt: nat, script: seq<Attempt>) {
    WaitsAre(l.maxWait, base, attempt, Retry(l, base, attempt, script).waits, Resets(script))
  }

  lemma ShiftWaits(maxWait: int64, base: int64, attempt: nat, w: int64, waits: seq<int64>,
                   resets: seq<Option<int>>, rest: seq<Option<int>>)
    requires resets != [] && resets[1..] == rest && w == IdealWait(maxWait, base, attempt, resets[0])
    requires WaitsAre(maxWait, base, attempt + 1, waits, rest)
    ensures WaitsAre(maxWait, base, attempt, [w] + waits, resets)
  {
    var all := [w] + waits;
    forall j | 0 <= j < |all| ensures all[j] == IdealWait(maxWait, base, attempt + j, resets[j]) {
      if j > 0 {
        assert all[j] == waits[j - 1] && resets[j] == rest[j - 1];
        assert waits[j - 1] == IdealWait(maxWait, base, attempt + 1 + (j - 1), rest[j - 1]);
      }
    }
  }

  lemma ExactWaitsStep(l: Limits, base: int64, attempt: nat, script: seq<Attempt>)
    requires script != []
    requires Classify(script[0].err).Limited? ==>
      var reset := Classify(script[0].err).reset;
      WaitTime(l.maxWait, base, attempt, reset) == IdealWait(l.maxWait, base, attempt, reset)
    requires GoesOn(l, base, attempt, script[0]) ==> ExactWaits(l, base, NextAttempt(attempt, script[0]), script[1..])
    ensures ExactWaits(l, base, attempt, script)
  {
    var o := Retry(l, base, attempt, script);
    if GoesOn(l, base, attempt, script[0]) {
      var p := Retry(l, base, NextAttempt(attempt, script[0]), script[1..]);
      if Classify(script[0].err).Stutter? {
        assert o.waits == p.waits;
      } else {
        ShiftWaits(l.maxWait, base, attempt, o.waits[0], p.waits, Resets(script), Resets(script[1..]));
      }
    }
  }

  /** Without hints the 64-bit product never overflows as long as the maximum wait is at most 2^62 ns. */
  lemma {:induction false} NoOverflowWithoutHints(l: Limits, base: int64, attempt: nat, script: seq<Attempt>)
    requires base > 0 && 0 < l.maxWait <= TWO_63 / 2 && HintFree(script)
    requires attempt > 0 ==> Doubled(base, attempt - 1) < l.maxWait
    ensures MachineBackoff(base, attempt) == Doubled(base, attempt)
    ensures ExactWaits(l, base, attempt, script)
    decreases |script|
  {
    MachineBackoffExact(base, attempt);
    if script == [] {
    } else {
      assert HintFree(script[1..]) by { forall a <- script[1..] ensures a in script {} }
      assert script[0] in script;
      if Classify(script[0].err).Stutter? {
        NoOverflowWithoutHints(l, base, attempt, script[1..]);
      }
      if Classify(script[0].err).Limited? && !Spent(l, attempt + 1, WaitTime(l.maxWait, base, attempt, None)) {
        NoOverflowWithoutHints(l, base, attempt + 1, script[1..]);
      }
      ExactWaitsStep(l, base, attempt, script);
    }
  }

  /** With hints mixed in, a retry cap R keeps the product exact when base * 2^(R-1) fits. */
  lemma {:induction false} NoOverflowWithCap(l: Limits, base: int64, attempt: nat, script: seq<Attempt>)
    requires base > 0 && attempt < l.maxRetries && Doubled(base, l.maxRetries - 1) < TWO_63
    ensures MachineBackoff(base, attempt) == Doubled(base, attempt)
    ensures ExactWaits(l, base, attempt, script)
    decreases |script|
  {
    DoubledMonotone(base, attempt, l.maxRetries - 1);
    MachineBackoffExact(base, attempt);
    if script == [] {
    } else {
      NoOverflowWithCap(l, base, attempt, script[1..]);
      if attempt + 1 < l.maxRetries {
        NoOverflowWithCap(l, base, attempt + 1, script[1..]);
      }
      ExactWaitsStep(l, base, attempt, script);
    }
  }

  /** min(R, K + 1), where K doublings take the base to the maximum wait and R is the cap, if there is one. */
  function ScheduledCalls(maxRetries: int, k: nat): nat {
    if 0 < maxRetries <= k then maxRetries else k + 1
  }

  /** The capped wait that ends the schedule; one doubling past 63 bits it is the wrapped, negative product. */
  function LastWait(l: Limits, base: int64, k: nat): int {
    if Doubled(base, k) < TWO_63 then l.maxWait else Doubled(base, k) - TWO_64
  }

  lemma OverflowingWait(l: Limits, base: int64, k: nat)
    requires base > 0 && l.maxWait > 0 && IsLeastDoubling(base, l.maxWait, k) && Doubled(base, k) >= TWO_63
    ensures WaitTime(l.maxWait, base, k, None) == LastWait(l, base, k) < 0
  {
    assert k > 0;
    MachineBackoffOverflows(base, k);
  }

  /** Steady hint-free 429s: exactly min(R, K + 1) calls (K + 1 without a cap) if base * 2^K does not overflow or the
      cap ends the loop before the overflow is felt; the waits then add up in closed form. */
  lemma {:induction false} BackoffSchedule(l: Limits, base: int64, k: nat, n: nat, script: seq<Attempt>)
    requires base > 0 && l.maxWait > 0 && IsLeastDoubling(base, l.maxWait, k) && n <= k
    requires l.maxRetries > 0 ==> n < l.maxRetries
    requires AllHintFree429(script) && |script| >= k + 1 - n
    requires Doubled(base, k) < TWO_63 || 0 < l.maxRetries <= k + 1
    ensures
      var o := Retry(l, base, n, script);
      && o.result.Exhausted?
      && |o.waits| == o.calls == ScheduledCalls(l.maxRetries, k) - n
      && Sum(o.waits) == (if 0 < l.maxRetries <= k then Doubled(base, l.maxRetries) - Doubled(base, n)
                          else Doubled(base, k) - Doubled(base, n) + LastWait(l, base, k))
    decreases k - n
  {
    assert script[0] in script;
    if n < k {
      DoubledMonotone(base, n, k - 1);
      MachineBackoffExact(base, n);
      assert WaitTime(l.maxWait, base, n, None) == Doubled(base, n);
      if !Spent(l, n + 1, Doubled(base, n)) {
        TailHintFree(script);
        BackoffSchedule(l, base, k, n + 1, script[1..]);
        var o := Retry(l, base, n, script);
        assert o.waits[1..] == Retry(l, base, n + 1, script[1..]).waits;
      }
    } else if Doubled(base, k) < TWO_63 {
      MachineBackoffExact(base, n);
    } else {
      OverflowingWait(l, base, k);
    }
  }

  lemma {:induction false} OverflowKeepsCalling(l: Limits, base: int64, k: nat, n: nat, script: seq<Attempt>)
    requires base > 0 && l.maxWait > 0 && IsLeastDoubling(base, l.maxWait, k) && n <= k
    requires l.maxRetries <= 0 || l.maxRetries > k + 1
    requires AllHintFree429(script) && |script| >= k + 2 - n && Doubled(base, k) >= TWO_63
    ensures Retry(l, base, n, script).calls > k + 1 - n
    decreases k - n
  {
    assert script[0] in script;
    TailHintFree(script);
    if n < k {
      DoubledMonotone(base, n, k - 1);
      MachineBackoffExact(base, n);
      OverflowKeepsCalling(l, base, k, n + 1, script[1..]);
    } else {
      OverflowingWait(l, base, k);
      assert script[1] in script;
    }
  }

  /** For every cap R: min(R, K + 1) calls if and only if base * 2^K does not overflow 63 bits or the cap is at most
      K + 1. Otherwise the wrapped wait is negative and the loop goes on calling. */
  lemma CallsExactIff(l: Limits, base: int64, k: nat, script: seq<Attempt>)
    requires base > 0 && l.maxWait > 0 && IsLeastDoubling(base, l.maxWait, k)
    requires AllHintFree429(script) && |script| >= k + 2
    ensures Retry(l, base, 0, script).calls == ScheduledCalls(l.maxRetries, k)
       <==> Doubled(base, k) < TWO_63 || 0 < l.maxRetries <= k + 1
  {
    if Doubled(base, k) < TWO_63 || 0 < l.maxRetries <= k + 1 {
      BackoffSchedule(l, base, k, 0, script);
    } else {
      OverflowKeepsCalling(l, base, k, 0, script);
    }
  }

  // ---- An overflow that never ends

  /** A base of 2^62 ns under a maximum one nanosecond longer: the second wait already overflows. */
  const HALF: int64 := 0x4000_0000_0000_0000

  function OverflowingLimits(maxRetries: int): Limits {
    Limits(maxRetries, HALF + 1, HALF, HALF)
  }

  /** Wrapping a multiple of four leaves one, and 2^62 times that wraps to nothing. */
  lemma WrapKeepsFours(q: int)
    ensures Wrap64(HALF * Wrap64(4 * q)) == 0
  {
    var z := q - HALF * ((4 * q + TWO_63) / TWO_64);
    assert Wrap64(4 * q) == 4 * z;
    WrapMultiple(z);
  }

  lemma HalfBackoff(n: nat)
    ensures MachineBackoff(HALF, n) == if n == 0 then HALF else if n == 1 then -TWO_63 else 0
  {
    if n < 2 {
      assert Pow2(0) == 1 && Pow2(1) == 2;
    } else {
      assert Pow2(n) == 2 * Pow2(n - 1) == 4 * Pow2(n - 2);
      WrapKeepsFours(Pow2(n - 2));
    }
  }

  /** Here K is 1, and without a cap the loop calls for as long as the 429s keep coming. */
  lemma OverflowNeverReturns(op: OperationType, maxRetries: int, n: nat, script: seq<Attempt>)
    requires maxRetries <= 0 && AllHintFree429(script)
    ensures IsLeastDoubling(HALF, HALF + 1, 1) && Doubled(HALF, 1) == TWO_63
    ensures
      var l := OverflowingLimits(maxRetries);
      var o := Retry(l, l.BaseWait(op), n, script);
      o.result.Pending? && o.calls == |script|
  {
    assert Doubled(HALF, 0) == HALF && Doubled(HALF, 1) == 2 * Doubled(HALF, 0);
    var l := OverflowingLimits(maxRetries);
    HintFreeReturnsIff(l, HALF, n, script);
    forall i: nat ensures !ReachesMaximum(l, HALF, i) { HalfBackoff(i); }
    LastCallDecides(l, HALF, n, script);
  }

  /** A failed call that is tried again: a hint-free 429 whose wait is sat out, or another API error. */
  ghost predicate TriedAgain(a: Attempt) {
    && a.err.Some? && a.err.value.Xrpc? && !SuppressATProtoErr(a.err.value)
    && (a.err.value.status == 429 ==> a.err.value.reset.None? && !a.cancelled)
  }

  function RateLimited(script: seq<Attempt>): nat {
    if script == [] then 0
    else (if script[0].err.Some? && script[0].err.value.Xrpc? && script[0].err.value.status == 429 then 1 else 0)
         + RateLimited(script[1..])
  }

  lemma TriedAgainWaits(l: Limits, base: int64, n: nat, a: Attempt, rest: seq<Attempt>)
    requires base > 0 && l.maxWait > 0 && TriedAgain(a) && a.err.value.status == 429
    requires MachineBackoff(base, n) == Doubled(base, n) < l.maxWait && (l.maxRetries > 0 ==> n + 1 < l.maxRetries)
    ensures Retry(l, base, n, [a] + rest) == Retry(l, base, n + 1, rest).After(1, [Doubled(base, n)])
  {
    assert ([a] + rest)[1..] == rest;
  }

  lemma TriedAgainAtOnce(l: Limits, base: int64, n: nat, a: Attempt, rest: seq<Attempt>)
    requires TriedAgain(a) && a.err.value.status != 429
    ensures Retry(l, base, n, [a] + rest) == Retry(l, base, n, rest).After(1, [])
  {
    assert ([a] + rest)[1..] == rest;
  }

  /** The run returns nil after this many calls and after m doubling waits, the first of them base * 2^n. */
  ghost predicate DoublingRun(o: Outcome, base: int64, n: nat, calls: nat, m: nat) {
    && o.result.ReturnedNil? && o.calls == calls && |o.waits| == m
    && forall j :: 0 <= j < m ==> o.waits[j] == Doubled(base, n + j)
  }

  lemma DoublingRunGrows(o: Outcome, base: int64, n: nat, calls: nat, m: nat, w: int64)
    requires DoublingRun(o, base, n + 1, calls, m) && w == Doubled(base, n)
    ensures DoublingRun(o.After(1, [w]), base, n, calls + 1, m + 1)
  {
    var waits := [w] + o.waits;
    forall j | 0 <= j < m + 1 ensures waits[j] == Doubled(base, n + j) {
      if j > 0 { assert o.waits[j - 1] == Doubled(base, n + 1 + (j - 1)); }
    }
  }

  /** Calls that fail within the budget and are tried again cost their calls, and doubling waits for the 429s among
      them; then the run is that of the next call. */
  lemma {:induction false} TriedAgainThen(l: Limits, base: int64, n: nat, failed: seq<Attempt>, last: Attempt,
                                          rest: seq<Attempt>)
    requires base > 0 && l.maxWait > 0 && forall a <- failed :: TriedAgain(a)
    requires n + RateLimited(failed) > 0 ==> Doubled(base, n + RateLimited(failed) - 1) < l.maxWait
    requires l.maxRetries > 0 ==> n + RateLimited(failed) < l.maxRetries
    requires last.err.None?
    ensures DoublingRun(Retry(l, base, n, failed + [last] + rest), base, n, |failed| + 1, RateLimited(failed))
    decreases |failed|
  {
    if failed == [] {
      assert failed + [last] + rest == [last] + rest;
    } else {
      var a, more := failed[0], failed[1..];
      var later := more + [last] + rest;
      assert failed + [last] + rest == [a] + later;
      assert a in failed && forall b <- more :: b in failed;
      if a.err.value.status == 429 {
        DoubledMonotone(base, n, n + RateLimited(failed) - 1);
        MachineBackoffExact(base, n);
        TriedAgainThen(l, base, n + 1, more, last, rest);
        TriedAgainWaits(l, base, n, a, later);
        DoublingRunGrows(Retry(l, base, n + 1, later), base, n, |failed|, RateLimited(more), Doubled(base, n));
      } else {
        TriedAgainThen(l, base, n, more, last, rest);
        TriedAgainAtOnce(l, base, n, a, later);
      }
    }
  }

  /** The bound a caller can rely on: with the maximum wait at most 2^62 ns the loop gives up after min(R, K + 1) calls
      having waited base * (2^R - 1) if the cap R ended it, else base * (2^K - 1) + maxWait; in any case less than
      three times the maximum. */
  lemma {:induction false} TotalWaitBound(l: Limits, base: int64, script: seq<Attempt>)
    requires base > 0 && 0 < l.maxWait <= TWO_63 / 2
    requires AllHintFree429(script) && |script| >= Doublings(base, l.maxWait) + 1
    ensures
      var k := Doublings(base, l.maxWait);
      var o := Retry(l, base, 0, script);
      && o.result.Exhausted? && o.calls == ScheduledCalls(l.maxRetries, k)
      && Sum(o.waits) == (if 0 < l.maxRetries <= k then Doubled(base, l.maxRetries) - base
                          else Doubled(base, k) - base + l.maxWait)
      && Sum(o.waits) < 3 * l.maxWait
  {
    var k := Doublings(base, l.maxWait);
    BackoffSchedule(l, base, k, 0, script);
    if 0 < l.maxRetries <= k {
      DoubledMonotone(base, l.maxRetries, k);
    }
  }

  /** 500 ms reaches 30 s in 6 doublings, 1 s in 5. */
  lemma StockDoublings(op: OperationType, maxRetries: int)
    ensures
      var base := StockLimits(maxRetries).BaseWait(op);
      var k := if op.ReadOperation? then 6 else 5;
      && IsLeastDoubling(base, 30 * SECOND, k) && Doublings(base, 30 * SECOND) == k
      && Doubled(base, k) == 32 * SECOND
  {
    var base := StockLimits(maxRetries).BaseWait(op);
    var k := if op.ReadOperation? then 6 else 5;
    assert Pow2(4) == 16 && Pow2(5) == 32 && Pow2(6) == 64;
    DoubledIsProduct(base, k);
    DoubledIsProduct(base, k - 1);
    LeastDoublingUnique(base, 30 * SECOND, k, Doublings(base, 30 * SECOND));
  }

  /** The stock configuration under steady 429s: R calls for a cap R of at most 6 (5 for writes), else 7 read calls
      (6 writes), which only the 30 s ceiling stops. */
  lemma StockSchedule(op: OperationType, maxRetries: int, script: seq<Attempt>)
    requires AllHintFree429(script) && |script| >= 7
    ensures
      var l := StockLimits(maxRetries);
      var o := Retry(l, l.BaseWait(op), 0, script);
      var k := if op.ReadOperation? then 6 else 5;
      && o.result.Exhausted? && o.calls == (if 0 < maxRetries <= k then maxRetries else k + 1)
      && (!(0 < maxRetries <= k) ==> Sum(o.waits) == (if op.ReadOperation? then 61_500 else 61_000) * MILLISECOND)
  {
    var l := StockLimits(maxRetries);
    StockDoublings(op, maxRetries);
    TotalWaitBound(l, l.BaseWait(op), script);
  }
}
