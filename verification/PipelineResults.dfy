/** What the laws add up to: exactly-once handling, refinement of the nested loop, in-flight accounting,
    back-pressure. */
module PipelineResults {
  import opened Errors
  import opened Bags
  import opened Pipeline
  import opened PipelineLaws

  // ---- How often a job and an item can occur

  lemma CountConcat<T>(a: seq<T>, b: seq<T>, x: T)
    ensures multiset(a + b)[x] == multiset(a)[x] + multiset(b)[x]
    ensures x in a + b <==> x in a || x in b
  {
  }

  lemma {:induction false} PageJobsOnce(page: nat, repos: seq<Option<Listing>>, k: nat, j: Job)
    ensures multiset(PageJobs(page, repos, k))[j] <= 1
    ensures j in PageJobs(page, repos, k) ==> j.page == page && j.slot >= k
    decreases |repos| - k
  {
    if k >= |repos| {
    } else {
      PageJobsOnce(page, repos, k + 1, j);
      if !FilterRepo(repos[k]) {
        var first := Job(page, k, repos[k].value);
        CountConcat([first], PageJobs(page, repos, k + 1), j);
        assert j == first ==> j !in PageJobs(page, repos, k + 1);
      }
    }
  }

  lemma {:induction false} NestedJobsOnce(listed: seq<seq<Option<Listing>>>, j: Job)
    ensures multiset(NestedJobs(listed))[j] <= 1
    ensures j in NestedJobs(listed) ==> j.page <= |listed|
  {
    if listed == [] {
    } else {
      var init, last := listed[..|listed| - 1], PageJobs(|listed|, listed[|listed| - 1], 0);
      NestedJobsOnce(init, j);
      PageJobsOnce(|listed|, listed[|listed| - 1], 0, j);
      CountConcat(NestedJobs(init), last, j);
    }
  }

  lemma {:induction false} ItemsFromOnce(job: Job, k: nat, x: Item)
    ensures multiset(ItemsFrom(job, k))[x] == if x.job == job && k <= x.index < |JobPlan(job).items| then 1 else 0
    decreases |JobPlan(job).items| - k
  {
    if k >= |JobPlan(job).items| {
    } else {
      ItemsFromOnce(job, k + 1, x);
    }
  }

  lemma ItemsOfJobsAppend(jobs: seq<Job>, job: Job)
    ensures ItemsOfJobs(jobs + [job]) == ItemsOfJobs(jobs) + ItemsFrom(job, 0)
  {
    assert (jobs + [job])[..|jobs|] == jobs;
  }

  lemma Assoc<T>(a: seq<T>, b: seq<T>, c: seq<T>)
    ensures (a + b) + c == a + (b + c)
  {
  }

  lemma {:induction false} ItemsOfJobsConcat(a: seq<Job>, b: seq<Job>)
    ensures ItemsOfJobs(a + b) == ItemsOfJobs(a) + ItemsOfJobs(b)
  {
    if b == [] {
      assert a + b == a;
    } else {
      var init, last := b[..|b| - 1], b[|b| - 1];
      assert b == init + [last] && a + b == (a + init) + [last];
      ItemsOfJobsConcat(a, init);
      ItemsOfJobsAppend(init, last);
      ItemsOfJobsAppend(a + init, last);
      Assoc(ItemsOfJobs(a), ItemsOfJobs(init), ItemsFrom(last, 0));
    }
  }

  lemma ItemsOfOne(job: Job)
    ensures ItemsOfJobs([job]) == ItemsFrom(job, 0)
  {
    ItemsOfJobsAppend([], job);
    assert [] + [job] == [job];
  }

  /** The last job adds its own occurrence, and those of its items. */
  lemma LastJobCounts(jobs: seq<Job>, x: Item)
    requires jobs != []
    ensures
      var init, last := jobs[..|jobs| - 1], jobs[|jobs| - 1];
      && multiset(ItemsOfJobs(jobs))[x] == multiset(ItemsOfJobs(init))[x] + multiset(ItemsFrom(last, 0))[x]
      && multiset(jobs)[x.job] == multiset(init)[x.job] + if x.job == last then 1 else 0
  {
    var init, last := jobs[..|jobs| - 1], jobs[|jobs| - 1];
    assert jobs == init + [last];
    CountConcat(ItemsOfJobs(init), ItemsFrom(last, 0), x);
    CountConcat(init, [last], x.job);
  }

  /** An item occurs among the items of some jobs as often as its job does. */
  lemma {:induction false} ItemsOfJobsCount(jobs: seq<Job>, x: Item)
    ensures multiset(ItemsOfJobs(jobs))[x] == if x.index < |JobPlan(x.job).items| then multiset(jobs)[x.job] else 0
  {
    if jobs == [] {
    } else {
      LastJobCounts(jobs, x);
      ItemsOfJobsCount(jobs[..|jobs| - 1], x);
      ItemsFromOnce(jobs[|jobs| - 1], 0, x);
    }
  }

  lemma ItemsOfSameJobs(a: seq<Job>, b: seq<Job>)
    requires multiset(a) == multiset(b)
    ensures multiset(ItemsOfJobs(a)) == multiset(ItemsOfJobs(b))
  {
    forall x ensures multiset(ItemsOfJobs(a))[x] == multiset(ItemsOfJobs(b))[x] {
      ItemsOfJobsCount(a, x);
      ItemsOfJobsCount(b, x);
    }
  }

  // ---- Exactly once

  /** The places an emitted item can be in. */
  ghost function Places(s: State): multiset<Item> {
    multiset(s.items) + Bag(IngestItem, s.ingestWorkers) + Bag(ReportItem, s.results) + CollectorItem(s.collector)
    + s.log.consumed
  }

  lemma EmittedIsInPlaces(s: State)
    requires QueueLaw(s) && FlowLaw(s)
    ensures multiset(s.log.emitted) == Places(s)
  {
    var b := Bag(IngestItem, s.ingestWorkers);
    assert multiset(s.log.emitted) == (b + Resulted(s)) + multiset(s.items);
    forall x ensures multiset(s.log.emitted)[x] == Places(s)[x] {}
  }

  lemma AtMostOnce(s: State, x: Item)
    requires QueueLaw(s) && JobLaw(s) && ItemLaw(s)
    ensures multiset(s.log.emitted)[x] <= 1
  {
    ItemsOfJobsCount(s.log.taken, x);
    NestedJobsOnce(s.log.listed, x.job);
    var j := x.job;
    assert multiset(s.log.accepted)[j] == multiset(s.log.taken)[j] + multiset(s.jobs)[j];
    assert multiset(NestedJobs(s.log.listed))[j] >= Settled(s.log)[j] >= multiset(s.log.accepted)[j];
    assert multiset(ItemsOfJobs(s.log.taken))[x] >= HandedOn(s.log)[x] >= multiset(s.log.emitted)[x];
  }

  lemma {:induction false} CalledAtMostHeld(ws: seq<IngestWorker>)
    ensures Bag(CalledItem, ws) <= Bag(IngestItem, ws)
  {
    if ws == [] {
    } else {
      CalledAtMostHeld(ws[..|ws| - 1]);
    }
  }

  /** In every reachable state, cancelled or not: no item is emitted twice, every emitted item is in exactly one place,
      ingest is called at most once for it, and every received item owes exactly one result. */
  lemma ExactlyOnce(cfg: Config, s: State)
    requires Reachable(cfg, s)
    ensures multiset(s.log.emitted) == Places(s)
    ensures forall x :: Places(s)[x] <= 1
    ensures multiset(s.log.ingested) <= multiset(s.log.received) <= multiset(s.log.emitted)
    ensures multiset(s.log.received) == Bag(IngestItem, s.ingestWorkers) + Resulted(s)
  {
    ReachableInv(cfg, s);
    EmittedIsInPlaces(s);
    forall x ensures Places(s)[x] <= 1 { AtMostOnce(s, x); }
    CalledAtMostHeld(s.ingestWorkers);
  }

  // ---- Refinement of the nested loop

  lemma DryBags(s: State)
    requires (forall t <- s.submitters :: SubmitterDone(t)) && (forall w <- s.repoWorkers :: w.RepoIdle?)
    ensures Bag(SubmitterJobs, s.submitters) == multiset{} && Bag(HeldJob, s.submitters) == multiset{}
    ensures Bag(Owed, s.repoWorkers) == multiset{}
  {
    forall t <- s.submitters ensures SubmitterJobs(t) == multiset{} == HeldJob(t) {
      assert SubmitterDone(t);
    }
    BagEmpty(SubmitterJobs, s.submitters);
    BagEmpty(HeldJob, s.submitters);
    BagEmpty(Owed, s.repoWorkers);
  }

  lemma QuiescentBags(s: State)
    requires Quiescent(s)
    ensures Bag(SubmitterJobs, s.submitters) == multiset{} && Bag(HeldJob, s.submitters) == multiset{}
    ensures Bag(Owed, s.repoWorkers) == multiset{}
    ensures Bag(IngestItem, s.ingestWorkers) == multiset{} && Bag(CalledItem, s.ingestWorkers) == multiset{}
  {
    DryBags(s);
    BagEmpty(IngestItem, s.ingestWorkers);
    BagEmpty(CalledItem, s.ingestWorkers);
  }

  lemma AcceptedAll(s: State)
    requires Bag(SubmitterJobs, s.submitters) == multiset{} && JobLaw(s) && s.log.refused == multiset{}
    ensures multiset(s.log.accepted) == multiset(NestedJobs(s.log.listed))
  {
  }

  lemma EmittedAll(s: State)
    requires Bag(Owed, s.repoWorkers) == multiset{} && ItemLaw(s) && s.log.dropped == multiset{}
    requires QueueLaw(s) && s.jobs == []
    ensures multiset(s.log.emitted) == multiset(ItemsOfJobs(s.log.accepted))
  {
    assert s.log.taken == s.log.accepted;
  }

  lemma IngestedAll(s: State)
    requires Bag(IngestItem, s.ingestWorkers) == multiset{} && Bag(CalledItem, s.ingestWorkers) == multiset{}
    requires FlowLaw(s)
    requires QueueLaw(s) && s.items == [] && s.results == [] && s.collector.Waiting?
    ensures multiset(s.log.ingested) == multiset(s.log.emitted) == s.log.consumed
  {
    assert s.log.received == s.log.emitted;
    assert Resulted(s) == s.log.consumed;
  }

  /** Whatever the interleaving and the number of workers: when an uncancelled pipeline has come to rest, the items
      passed to ingest are exactly those of the plain nested loop over the listed pages, each once. */
  lemma RefinesNestedLoop(cfg: Config, s: State)
    requires Reachable(cfg, s) && !s.cancelled && Quiescent(s)
    ensures multiset(s.log.ingested) == multiset(NestedItems(s.log.listed)) == s.log.consumed
    ensures multiset(s.log.accepted) == multiset(NestedJobs(s.log.listed))
    ensures multiset(s.log.emitted) == multiset(s.log.ingested)
  {
    ReachableInv(cfg, s);
    QuiescentBags(s);
    AcceptedAll(s);
    EmittedAll(s);
    ItemsOfSameJobs(s.log.accepted, NestedJobs(s.log.listed));
    IngestedAll(s);
  }

  /** No value ever sent on results is an error: the collector's error branch is dead. */
  lemma ResultsAreNil(cfg: Config, s: State)
    requires Reachable(cfg, s)
    ensures forall r <- s.results :: r.err.None?
    ensures forall w <- s.ingestWorkers :: w.Reporting? ==> w.report.err.None?
  {
    ReachableInv(cfg, s);
  }

  /** Not because engines do not fail: whatever an engine may return, nil or a joined error, can come of the ingest of
      a held item, and what the worker then reports for that item is nil. */
  lemma AnyOutcomeIsReportedNil(cfg: Config, s: State, g: nat, outcome: Option<GoError>)
    requires g < |s.ingestWorkers| && s.ingestWorkers[g].Holding? && (outcome.None? || outcome.value.Join?)
    ensures
      var step := IngestStep(g, RunIngest(outcome));
      && Enabled(cfg, s, step)
      && Apply(cfg, s, step).ingestWorkers[g] == Reporting(Report(s.ingestWorkers[g].item, None))
  {
  }

  // ---- jobsInflight

  /** In every reachable state: accepted jobs, plus submissions counted and not yet resolved, minus results
      subtracted. */
  lemma InflightAccounting(cfg: Config, s: State)
    requires Reachable(cfg, s)
    ensures s.jobsInflight == |s.log.accepted| + |Bag(HeldJob, s.submitters)| - |s.log.consumed|
  {
    ReachableInv(cfg, s);
  }

  /** jobsInflight goes up per job and down per item: at rest it is jobs accepted minus items emitted,
      so it is back at zero exactly when the two numbers agree. */
  lemma InflightAtRest(cfg: Config, s: State)
    requires Reachable(cfg, s) && Quiescent(s)
    ensures s.jobsInflight == |s.log.accepted| - |s.log.emitted|
  {
    ReachableInv(cfg, s);
    QuiescentBags(s);
    IngestedAll(s);
    assert |multiset(s.log.emitted)| == |s.log.emitted|;
  }

  ghost predicate AtMostOneItemEach(jobs: seq<Job>) {
    forall j <- jobs :: |JobPlan(j).items| <= 1
  }

  lemma {:induction false} FewItems(jobs: seq<Job>)
    requires AtMostOneItemEach(jobs)
    ensures |ItemsOfJobs(jobs)| <= |jobs|
  {
    if jobs == [] {
    } else {
      FewItems(jobs[..|jobs| - 1]);
      var last := jobs[|jobs| - 1];
      assert last in jobs;
      assert ItemsFrom(last, 1) == [];
    }
  }

  lemma ConsumedAtMostTaken(s: State)
    requires QueueLaw(s) && ItemLaw(s) && FlowLaw(s)
    ensures |s.log.consumed| <= |s.log.emitted| <= |ItemsOfJobs(s.log.taken)|
  {
    EmittedIsInPlaces(s);
    assert |multiset(s.log.emitted)| == |Places(s)|;
    assert |multiset(ItemsOfJobs(s.log.taken))| == |Bag(Owed, s.repoWorkers)| + |HandedOn(s.log)|;
  }

  /** If no accepted job emits more than one item, jobsInflight is never negative: it is counted up before Submit. */
  lemma InflightNeverNegative(cfg: Config, s: State)
    requires Reachable(cfg, s) && AtMostOneItemEach(s.log.accepted)
    ensures s.jobsInflight >= |Bag(HeldJob, s.submitters)| >= 0
  {
    ReachableInv(cfg, s);
    forall j <- s.log.taken ensures |JobPlan(j).items| <= 1 { assert j in s.log.accepted; }
    FewItems(s.log.taken);
    ConsumedAtMostTaken(s);
  }

  // ---- Back-pressure

  /** Jobs a repo worker is busy with. */
  function BusyJob(w: RepoWorker): multiset<Job> {
    if w.Fetching? || w.Walking? || w.AtSend? then multiset{w.job} else multiset{}
  }

  lemma PlacesSize(s: State)
    requires multiset(s.log.emitted) == Places(s)
    ensures |s.log.emitted| == |s.items| + |Bag(IngestItem, s.ingestWorkers)| + |Bag(ReportItem, s.results)|
                               + |CollectorItem(s.collector)| + |s.log.consumed|
  {
    assert |multiset(s.log.emitted)| == |s.log.emitted|;
    assert |multiset(s.items)| == |s.items|;
  }

  /** The bounded channels hold the producers back: at most 3W jobs are accepted and unfinished, and at most 5W items
      are emitted whose results the collector has not received. */
  lemma BackPressure(cfg: Config, s: State)
    requires Reachable(cfg, s)
    ensures |s.log.accepted| - |s.log.taken| + |Bag(BusyJob, s.repoWorkers)| <= 3 * cfg.workers
    ensures |s.log.emitted| - |s.log.consumed| - |CollectorItem(s.collector)| <= 5 * cfg.workers
  {
    ReachableInv(cfg, s);
    BagAtMostOneEach(BusyJob, s.repoWorkers);
    BagAtMostOneEach(IngestItem, s.ingestWorkers);
    BagAtMostOneEach(ReportItem, s.results);
    EmittedIsInPlaces(s);
    PlacesSize(s);
  }

  lemma EmittedSize(s: State)
    requires QueueLaw(s) && FlowLaw(s)
    ensures |s.log.emitted| == |s.items| + |Bag(IngestItem, s.ingestWorkers)| + |s.results|
                               + |CollectorItem(s.collector)| + |s.log.consumed|
  {
    EmittedIsInPlaces(s);
    PlacesSize(s);
    BagOneEach(ReportItem, s.results);
  }
}
