/** One repository job: getRepo, called through WithRetry by a repo worker. */
module RepoJobs {
  import opened Errors
  import opened Backoff
  import opened RateLimit
  import opened RepoWalk

  /** How far one getRepo call comes: the error of the stage that fails, or the repository it walks. */
  datatype Fetch =
    | BadIdentifier(err: GoError)
    | LookupFailed(err: GoError)
    | NoEndpoint(err: GoError)
    | SyncFailed(err: GoError)
    | CarUnreadable(err: GoError)
    | Fetched(repo: Repo)

  /** One call, and whether the context is found cancelled in the wait that follows. */
  datatype FetchAttempt = FetchAttempt(fetch: Fetch, cancelled: bool)

  function FetchError(f: Fetch): Option<GoError> {
    if f.Fetched? then None else Some(f.err)
  }

  function FetchItems(f: Fetch): seq<RepoItem> {
    if f.Fetched? then Emitted(f.repo) else []
  }

  method GetRepo(f: Fetch, items: Outbox) returns (err: Option<GoError>)
    modifies items
    ensures err == FetchError(f) == if f.Fetched? then None else Some(f.err)
    ensures items.sent == old(items.sent) + FetchItems(f)
    ensures !f.Fetched? ==> items.sent == old(items.sent)
  {
    match f
    case BadIdentifier(e) => return Some(e);
    case LookupFailed(e) => return Some(e);
    case NoEndpoint(e) => return Some(e);
    case SyncFailed(e) => return Some(e);
    case CarUnreadable(e) => return Some(e);
    case Fetched(repo) =>
      var walkErr := ResolveLexicon(repo, items);
      // a walk error is logged at most; getRepo still succeeds
      return None;
  }

  function Attempts(script: seq<FetchAttempt>): (attempts: seq<Attempt>)
    ensures |attempts| == |script|
    ensures forall i :: 0 <= i < |script| ==> attempts[i] == Attempt(FetchError(script[i].fetch), script[i].cancelled)
  {
    seq(|script|, i requires 0 <= i < |script| => Attempt(FetchError(script[i].fetch), script[i].cancelled))
  }

  /** A run that has not returned has seen no final outcome. */
  lemma {:induction false} PendingHasNoFinal(l: Limits, base: int64, n: nat, script: seq<Attempt>, i: nat)
    requires Retry(l, base, n, script).result.Pending? && i < |script|
    ensures !Classify(script[i].err).Final?
    decreases |script|
  {
    if i == 0 {
    } else {
      if Classify(script[0].err).Stutter? {
        PendingHasNoFinal(l, base, n, script[1..], i - 1);
      } else {
        PendingHasNoFinal(l, base, n + 1, script[1..], i - 1);
      }
    }
  }

  lemma FetchedOnlyLast(l: Limits, base: int64, attempts: seq<Attempt>)
    ensures
      var o := Retry(l, base, 0, attempts);
      && o.calls <= |attempts|
      && (forall i :: 0 <= i < o.calls - 1 ==> attempts[i].err.Some?)
      && (o.result.ReturnedNil? ==> o.calls > 0)
      && (!o.result.ReturnedNil? ==> forall i :: 0 <= i < o.calls ==> attempts[i].err.Some?)
  {
    LastCallDecides(l, base, 0, attempts);
    EarlierCallsRetry(l, base, 0, attempts);
    var o := Retry(l, base, 0, attempts);
    forall i | 0 <= i < o.calls - 1 ensures attempts[i].err.Some? {
      assert !Classify(attempts[i].err).Final?;
    }
    if o.result.Pending? && o.calls > 0 {
      PendingHasNoFinal(l, base, 0, attempts, o.calls - 1);
    }
  }

  /** The WithRetry run of a job. Its early calls are not final; its last one is, when it returns nil. */
  function JobRun(l: Limits, script: seq<FetchAttempt>): (o: Outcome)
    ensures o.calls <= |script|
    ensures forall i :: 0 <= i < o.calls - 1 ==> !script[i].fetch.Fetched?
    ensures o.result.ReturnedNil? ==> o.calls > 0
    ensures !o.result.ReturnedNil? ==> forall i :: 0 <= i < o.calls ==> !script[i].fetch.Fetched?
  {
    var o := Retry(l, l.BaseWait(ReadOperation), 0, Attempts(script));
    FetchedOnlyLast(l, l.BaseWait(ReadOperation), Attempts(script));
    assert forall i :: 0 <= i < |script| ==> (script[i].fetch.Fetched? ==> Attempts(script)[i].err == None);
    o
  }

  /** Everything a run of calls sends to the items channel. */
  function SentBy(script: seq<FetchAttempt>): seq<RepoItem> {
    if script == [] then [] else SentBy(script[..|script| - 1]) + FetchItems(script[|script| - 1].fetch)
  }

  /** Everything a job sends: what its getRepo calls send, one after the other. */
  function JobItems(l: Limits, script: seq<FetchAttempt>): seq<RepoItem> {
    SentBy(script[..JobRun(l, script).calls])
  }

  method FetchWithRetry(h: RateLimitHandler, script: seq<FetchAttempt>) returns (run: Outcome)
    modifies h
    ensures run == JobRun(h.limits, script)
  {
    var result, calls, waits := h.WithRetry(ReadOperation, Attempts(script));
    return Outcome(result, calls, waits);
  }

  lemma SentByNext(script: seq<FetchAttempt>, i: nat)
    requires i < |script|
    ensures forall before: seq<RepoItem> ::
              before + SentBy(script[..i + 1]) == (before + SentBy(script[..i])) + FetchItems(script[i].fetch)
  {
    assert script[..i + 1][..i] == script[..i];
  }

  /** The getRepo calls of a run. */
  method SendAll(script: seq<FetchAttempt>, items: Outbox)
    modifies items
    ensures items.sent == old(items.sent) + SentBy(script)
  {
    for i := 0 to |script|
      invariant items.sent == old(items.sent) + SentBy(script[..i])
    {
      SentByNext(script, i);
      var err := GetRepo(script[i].fetch, items);
    }
    assert script[..|script|] == script;
  }

  /** A repo worker's handling of one job. */
  method ProcessJob(h: RateLimitHandler, script: seq<FetchAttempt>, items: Outbox) returns (result: Result)
    modifies h, items
    ensures result == JobRun(h.limits, script).result
    ensures items.sent == old(items.sent) + JobItems(h.limits, script)
  {
    var run := FetchWithRetry(h, script);
    SendAll(script[..run.calls], items);
    return run.result;
  }

  lemma {:induction false} NothingSentBy(script: seq<FetchAttempt>)
    requires forall i :: 0 <= i < |script| ==> !script[i].fetch.Fetched?
    ensures SentBy(script) == []
  {
    if script == [] {
    } else {
      NothingSentBy(script[..|script| - 1]);
    }
  }

  lemma SentByLast(script: seq<FetchAttempt>, calls: nat)
    requires calls <= |script| && forall i :: 0 <= i < calls - 1 ==> !script[i].fetch.Fetched?
    ensures SentBy(script[..calls]) == if calls == 0 then [] else FetchItems(script[calls - 1].fetch)
  {
    if calls > 0 {
      NothingSentBy(script[..calls - 1]);
      assert script[..calls][..calls - 1] == script[..calls - 1];
    }
  }

  /** Retrying never emits twice: only the last getRepo call of a job can reach the walk, so a job sends
      the items of one walk or nothing, and a job that was retried to the end or cancelled sends nothing. */
  lemma WalkRunsAtMostOnce(l: Limits, script: seq<FetchAttempt>)
    ensures
      var o := JobRun(l, script);
      && (forall i :: 0 <= i < o.calls - 1 ==> !script[i].fetch.Fetched?)
      && JobItems(l, script) == (if o.result.ReturnedNil? then FetchItems(script[o.calls - 1].fetch) else [])
  {
    SentByLast(script, JobRun(l, script).calls);
  }

  // ---- Jobs from end to end

  /** What a call hands to WithRetry: the very error of the stage that fails, and nothing once the walk has begun. */
  predicate HandsOver(f: Fetch, err: Option<GoError>) {
    match f
    case BadIdentifier(e) => err == Some(e)
    case LookupFailed(e) => err == Some(e)
    case NoEndpoint(e) => err == Some(e)
    case SyncFailed(e) => err == Some(e)
    case CarUnreadable(e) => err == Some(e)
    case Fetched(_) => err == None
  }

  /** A job is the retry loop, as a read operation, over exactly these errors. */
  lemma JobIsRetry(l: Limits, script: seq<FetchAttempt>, attempts: seq<Attempt>)
    requires |attempts| == |script|
    requires forall i :: 0 <= i < |script| ==>
               HandsOver(script[i].fetch, attempts[i].err) && attempts[i].cancelled == script[i].cancelled
    ensures JobRun(l, script) == Retry(l, l.readBase, 0, attempts)
  {
    assert attempts == Attempts(script);
  }

  lemma RestIsCalled(l: Limits, base: int64, rest: seq<Attempt>)
    ensures forall n: nat :: Retry(l, base, n, rest).calls >= 1 || rest == []
  {
  }

  /** The first call of a job that reaches the walk sends its repository's items; one that ends the job otherwise sends
      nothing. */
  lemma FirstCallOfJob(l: Limits, f: Fetch, cancelled: bool, rest: seq<FetchAttempt>)
    ensures
      var script := [FetchAttempt(f, cancelled)] + rest;
      var o := JobRun(l, script);
      if f.Fetched? then o == Outcome(ReturnedNil, 1, []) && JobItems(l, script) == Emitted(f.repo)
      else if || !f.err.Xrpc?
              || f.err.text in {"RepoTakendown", "RepoDeactivated", "XRPC ERROR 400: NotFound: Repo not found"}
              || WrapsGoneRepo(f.err)
      then o == Outcome(ReturnedNil, 1, []) && JobItems(l, script) == []
      else if f.err.status == 429 && cancelled then o == Outcome(Cancelled, 1, []) && JobItems(l, script) == []
      else o.calls > 1 || rest == [] || o.result.Exhausted?
  {
    var script := [FetchAttempt(f, cancelled)] + rest;
    var a := Attempt(if f.Fetched? then None else Some(f.err), cancelled);
    assert Attempts(script) == [a] + Attempts(rest);
    OneCallDecides(l, l.readBase, 0, a, Attempts(rest));
    WalkRunsAtMostOnce(l, script);
    RestIsCalled(l, l.readBase, Attempts(rest));
  }

  ghost predicate FailsAndRetries(a: FetchAttempt) {
    !a.fetch.Fetched? && TriedAgain(Attempt(Some(a.fetch.err), a.cancelled))
  }

  lemma AttemptsTriedAgain(failed: seq<FetchAttempt>)
    requires forall a <- failed :: FailsAndRetries(a)
    ensures forall a <- Attempts(failed) :: TriedAgain(a)
  {
    forall a <- Attempts(failed) ensures TriedAgain(a) {
      var i :| 0 <= i < |failed| && Attempts(failed)[i] == a;
      assert FailsAndRetries(failed[i]);
    }
  }

  lemma FetchedAttempt(failed: seq<FetchAttempt>, repo: Repo, cancelled: bool, rest: seq<FetchAttempt>)
    ensures Attempts(failed + [FetchAttempt(Fetched(repo), cancelled)] + rest)
         == Attempts(failed) + [Attempt(None, cancelled)] + Attempts(rest)
  {
  }

  /** Whichever stages failed and however often, within the budget: the call that fetches the repository ends the job,
      which sends that repository's items, all of them and once. */
  lemma RetriedJobSends(l: Limits, failed: seq<FetchAttempt>, repo: Repo, cancelled: bool, rest: seq<FetchAttempt>)
    requires l.readBase > 0 && l.maxWait > 0 && forall a <- failed :: FailsAndRetries(a)
    requires var m := RateLimited(Attempts(failed));
             && (m > 0 ==> Doubled(l.readBase, m - 1) < l.maxWait)
             && (l.maxRetries > 0 ==> m < l.maxRetries)
    ensures
      var script := failed + [FetchAttempt(Fetched(repo), cancelled)] + rest;
      var o := JobRun(l, script);
      && o.result.ReturnedNil? && o.calls == |failed| + 1 && |o.waits| == RateLimited(Attempts(failed))
      && (forall j :: 0 <= j < |o.waits| ==> o.waits[j] == Doubled(l.readBase, j))
      && JobItems(l, script) == Emitted(repo)
  {
    var script := failed + [FetchAttempt(Fetched(repo), cancelled)] + rest;
    AttemptsTriedAgain(failed);
    FetchedAttempt(failed, repo, cancelled, rest);
    TriedAgainThen(l, l.readBase, 0, Attempts(failed), Attempt(None, cancelled), Attempts(rest));
    WalkRunsAtMostOnce(l, script);
  }

  /** Under steady hint-free 429s, from whichever stage, the stock configuration gives a job up after 7 calls, or after
      as many as a smaller cap allows, having sent nothing. */
  lemma StockJobGivesUp(maxRetries: int, script: seq<FetchAttempt>)
    requires |script| >= 7 && forall a <- script :: FailsAndRetries(a) && a.fetch.err.status == 429
    ensures
      var l := StockLimits(maxRetries);
      var o := JobRun(l, script);
      && o.result.Exhausted? && o.calls == (if 0 < maxRetries <= 6 then maxRetries else 7)
      && JobItems(l, script) == []
  {
    forall a <- Attempts(script) ensures Classify(a.err) == Limited(None) && !a.cancelled {
      var i :| 0 <= i < |script| && Attempts(script)[i] == a;
      assert FailsAndRetries(script[i]) && script[i].fetch.err.status == 429;
    }
    StockSchedule(ReadOperation, maxRetries, Attempts(script));
    WalkRunsAtMostOnce(StockLimits(maxRetries), script);
  }
}
