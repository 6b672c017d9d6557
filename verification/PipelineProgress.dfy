/** Progress of the pipeline: no deadlock with full buffers, and run lengths fixed in advance. */
module PipelineProgress {
  import opened Errors
  import opened Bags
  import opened Pipeline
  import opened PipelineLaws
  import opened Pagination

  // ---- Every fetch comes to an end

  ghost predicate PageCompletes(repos: seq<Option<Listing>>) {
    forall r <- repos :: r.Some? ==> r.value.plan.completes
  }

  /** Each WithRetry call around getRepo returns. */
  ghost predicate FetchesReturn(cfg: Config) {
    forall c <- cfg.server :: PageCompletes(cfg.server[c].repos)
  }

  predicate HeldCompletes(t: Submitter) {
    t.held.Nothing? || JobPlan(t.held.job).completes
  }

  predicate WorkerCompletes(w: RepoWorker) {
    w.RepoIdle? || w.RepoGone? || JobPlan(w.job).completes
  }

  ghost predicate JobsComplete(s: State) {
    && (forall t <- s.submitters :: PageCompletes(t.repos) && HeldCompletes(t))
    && (forall j <- s.jobs :: JobPlan(j).completes)
    && (forall w <- s.repoWorkers :: WorkerCompletes(w))
  }

  lemma JobsCompleteSubmitter(cfg: Config, s: State, i: nat, m: SubmitterMove)
    requires JobsComplete(s) && SubmitterCan(cfg, s, i, m)
    ensures JobsComplete(SubmitterDo(cfg, s, i, m))
  {
    var t := s.submitters[i];
    assert t in s.submitters;
    if m.Offer? { assert t.repos[t.next] in t.repos; }
  }

  lemma JobsCompleteRepo(cfg: Config, s: State, r: nat, m: RepoMove)
    requires JobsComplete(s) && RepoCan(cfg, s, r, m)
    ensures JobsComplete(RepoDo(cfg, s, r, m))
  {
    assert s.repoWorkers[r] in s.repoWorkers;
    if m.TakeJob? { assert s.jobs[0] in s.jobs; }
  }

  lemma JobsCompleteStep(cfg: Config, s: State, step: Step)
    requires FetchesReturn(cfg) && JobsComplete(s) && Enabled(cfg, s, step)
    ensures JobsComplete(Apply(cfg, s, step))
  {
    match step
    case ListerStep(m) =>
    case SubmitterStep(i, m) => JobsCompleteSubmitter(cfg, s, i, m);
    case RepoStep(r, m) => JobsCompleteRepo(cfg, s, r, m);
    case _ =>
  }

  lemma {:induction false} JobsCompleteRun(cfg: Config, s: State, steps: seq<Step>)
    requires FetchesReturn(cfg) && JobsComplete(s) && Legal(cfg, s, steps)
    ensures JobsComplete(After(cfg, s, steps))
    decreases |steps|
  {
    if steps == [] {
    } else {
      JobsCompleteStep(cfg, s, steps[0]);
      JobsCompleteRun(cfg, Apply(cfg, s, steps[0]), steps[1..]);
    }
  }

  lemma ReachableComplete(cfg: Config, s: State)
    requires FetchesReturn(cfg) && Reachable(cfg, s)
    ensures JobsComplete(s)
  {
    var steps :| Legal(cfg, Init(cfg), steps) && After(cfg, Init(cfg), steps) == s;
    JobsCompleteRun(cfg, Init(cfg), steps);
  }

  // ---- Who can move

  /** `stops` says up to which slot of its page each submitter is to go. */
  ghost predicate WithinStops(s: State, stops: seq<nat>) {
    && |stops| == |s.submitters|
    && forall i :: 0 <= i < |stops| ==> s.submitters[i].next <= stops[i] <= |s.submitters[i].repos|
  }

  predicate StoppedAt(t: Submitter, stop: nat) {
    t.held.Nothing? && t.next >= stop
  }

  /** A worker whose fetch never returns; `Stalled` when it has made all its calls in vain. */
  predicate InTarPit(w: RepoWorker) {
    w.Fetching? && !JobPlan(w.job).completes
  }

  predicate Stalled(w: RepoWorker) {
    InTarPit(w) && w.left == 0
  }

  /** Nothing to do ahead of the items channel. */
  ghost predicate Dry(s: State, stops: seq<nat>) {
    && |stops| == |s.submitters| && (forall i :: 0 <= i < |stops| ==> StoppedAt(s.submitters[i], stops[i]))
    && s.jobs == [] && (forall w <- s.repoWorkers :: w.RepoIdle? || Stalled(w))
  }

  /** Every submitter to the end of its page. */
  ghost function Ends(s: State): seq<nat> {
    seq(|s.submitters|, i requires 0 <= i < |s.submitters| => |s.submitters[i].repos|)
  }

  lemma WithinEnds(s: State)
    requires Paged(s)
    ensures WithinStops(s, Ends(s))
  {
    forall i | 0 <= i < |s.submitters| ensures s.submitters[i].next <= |s.submitters[i].repos| {
      assert SubmitterFor(s.submitters[i], i + 1, s.log.listed[i]);
    }
  }

  lemma DryAtEnds(s: State)
    requires Dry(s, Ends(s))
    ensures forall t <- s.submitters :: SubmitterDone(t)
  {
    forall t <- s.submitters ensures SubmitterDone(t) {
      var i :| 0 <= i < |s.submitters| && s.submitters[i] == t;
      assert StoppedAt(t, Ends(s)[i]);
    }
  }

  lemma BusyStep(cfg: Config, s: State, r: nat) returns (step: Step)
    requires Shape(cfg, s) && !s.cancelled
    requires r < |s.repoWorkers| && !s.repoWorkers[r].RepoIdle? && !Stalled(s.repoWorkers[r])
    requires s.repoWorkers[r].AtSend? ==> |s.items| < Capacity(cfg)
    ensures Enabled(cfg, s, step) && step.RepoStep?
  {
    var w := s.repoWorkers[r];
    assert w in s.repoWorkers;
    step := RepoStep(r, match w
                        case Fetching(_, left) => if left > 0 then Fetch else StartWalk
                        case Walking(job, next) => if next < |JobPlan(job).items| then ReadRecord else FinishJob
                        case _ => SendItem);
  }

  /** Ahead of the items channel somebody can move if one worker is in no tar pit and none waits for room in that
      channel. */
  lemma EarlyStep(cfg: Config, s: State, stops: seq<nat>) returns (step: Step)
    requires Shape(cfg, s) && !s.cancelled && exists w <- s.repoWorkers :: !InTarPit(w)
    requires WithinStops(s, stops) && !Dry(s, stops)
    requires |s.items| < Capacity(cfg) || forall w <- s.repoWorkers :: !w.AtSend?
    ensures Enabled(cfg, s, step) && (step.SubmitterStep? || step.RepoStep?)
    ensures WithinStops(Apply(cfg, s, step), stops)
  {
    if r :| 0 <= r < |s.repoWorkers| && !s.repoWorkers[r].RepoIdle? && !Stalled(s.repoWorkers[r]) {
      step := BusyStep(cfg, s, r);
    } else if s.jobs != [] {
      var r :| 0 <= r < |s.repoWorkers| && !InTarPit(s.repoWorkers[r]);
      step := RepoStep(r, TakeJob);
    } else {
      var i :| 0 <= i < |stops| && !StoppedAt(s.submitters[i], stops[i]);
      var t := s.submitters[i];
      assert t in s.submitters && |s.repoWorkers| > 0;
      step := SubmitterStep(i, if t.held.Submitting? then Accept
                               else if FilterRepo(t.repos[t.next]) then SkipRepo else Offer);
    }
  }

  /** From the items channel to the results channel likewise. */
  lemma LateStep(cfg: Config, s: State) returns (step: Step)
    requires cfg.workers >= 1 && Shape(cfg, s) && !s.cancelled
    requires s.items != [] || exists w <- s.ingestWorkers :: !w.IngestIdle?
    requires |s.results| < Capacity(cfg) || forall w <- s.ingestWorkers :: !w.Reporting?
    ensures Enabled(cfg, s, step) && step.IngestStep?
  {
    if g :| 0 <= g < |s.ingestWorkers| && !s.ingestWorkers[g].IngestIdle? {
      assert s.ingestWorkers[g] in s.ingestWorkers;
      step := IngestStep(g, if s.ingestWorkers[g].Holding? then RunIngest(None) else SendResult);
    } else {
      step := IngestStep(0, TakeItem);
    }
  }

  /** From the collector backwards there is always someone who can move. */
  lemma SomeStep(cfg: Config, s: State) returns (step: Step)
    requires cfg.workers >= 1 && Shape(cfg, s) && JobsComplete(s) && !s.cancelled && !Quiescent(s)
    ensures Enabled(cfg, s, step) && !step.ContextStep?
  {
    WithinEnds(s);
    if s.collector.Received? {
      step := CollectorStep(Subtract);
    } else if s.results != [] {
      step := CollectorStep(Collect);
    } else if s.items != [] || exists w <- s.ingestWorkers :: !w.IngestIdle? {
      step := LateStep(cfg, s);
    } else if !Dry(s, Ends(s)) {
      assert s.repoWorkers[0] in s.repoWorkers && WorkerCompletes(s.repoWorkers[0]);
      step := EarlyStep(cfg, s, Ends(s));
    } else {
      DryAtEnds(s);
      assert forall w <- s.repoWorkers :: WorkerCompletes(w);
      step := ListerStep(if s.lister.cursor in cfg.server then ListPage else ListFail);
    }
  }

  /** With at least one worker of each kind, no cancellation and fetches that return, a reachable state that is not at
      rest has an enabled step, however full the buffers are. */
  lemma DeadlockFree(cfg: Config, s: State)
    requires cfg.workers >= 1 && FetchesReturn(cfg)
    requires Reachable(cfg, s) && !s.cancelled && !Quiescent(s)
    ensures exists step :: Enabled(cfg, s, step) && !step.ContextStep?
  {
    ReachableInv(cfg, s);
    ReachableComplete(cfg, s);
    var step := SomeStep(cfg, s);
  }

  // ---- The measure: steps still to come

  /** From the jobs channel on: receive, the calls, start of the walk, seven steps per item, finish. */
  function JobCost(j: Job): nat { JobPlan(j).calls + 7 * |JobPlan(j).items| + 3 }

  /** Skip; or offer, accept and the job. */
  function RepoCost(page: nat, slot: nat, r: Option<Listing>): nat {
    if FilterRepo(r) then 1 else 2 + JobCost(Job(page, slot, r.value))
  }

  function ReposCost(page: nat, repos: seq<Option<Listing>>, k: nat): nat
    decreases |repos| - k
  {
    if k >= |repos| then 0 else RepoCost(page, k, repos[k]) + ReposCost(page, repos, k + 1)
  }

  /** The request for each page and the work the page brings; a request that fails brings none. */
  function PagesCost(cfg: Config, cursors: seq<string>, k: nat): nat
    decreases |cursors| - k
  {
    if k >= |cursors| then 0
    else
      var work := if cursors[k] in cfg.server then ReposCost(k + 1, cfg.server[cursors[k]].repos, 0) else 0;
      1 + work + PagesCost(cfg, cursors, k + 1)
  }

  function SubmitterCost(t: Submitter): nat {
    ReposCost(t.page, t.repos, t.next)
    + match t.held
      case Nothing => 0
      case Submitting(job) => 1 + JobCost(job)
      case Undoing(_) => 1
  }

  /** A worker's own step of leaving counts too. */
  function WorkerCost(w: RepoWorker): nat {
    match w
    case RepoIdle => 1
    case Fetching(job, left) => left + 7 * |JobPlan(job).items| + 3
    case Walking(job, next) => if next <= |JobPlan(job).items| then 7 * (|JobPlan(job).items| - next) + 2 else 2
    case AtSend(job, next) => if next <= |JobPlan(job).items| then 7 * (|JobPlan(job).items| - next) + 1 else 1
    case RepoGone => 0
  }

  function IngestCost(w: IngestWorker): nat {
    match w
    case IngestIdle => 1
    case Holding(_) => 5
    case Reporting(_) => 4
    case IngestGone => 0
  }

  function CollectorCost(c: Collector): nat {
    match c
    case Waiting => 1
    case Received(_) => 2
    case CollectorGone => 0
  }

  /** The work on pages already listed, and what is left of the shutdown. */
  ghost function Load(s: State): nat {
    Tally(SubmitterCost, s.submitters) + Tally(JobCost, s.jobs) + Tally(WorkerCost, s.repoWorkers)
    + 5 * |s.items| + Tally(IngestCost, s.ingestWorkers) + 2 * |s.results| + CollectorCost(s.collector)
    + (if s.cancelled then 0 else 1) + (if s.done then 0 else 1)
  }

  ghost function Measure(cfg: Config, cursors: seq<string>, s: State): nat {
    (if s.lister.AtPage? then PagesCost(cfg, cursors, |s.log.listed|) else 0) + Load(s)
  }

  /** The steps that only a shutdown makes: the workers and the collector leave, cancel, close. */
  function ShutdownCost(cfg: Config): nat { 2 * cfg.workers + 3 }

  lemma LoadSubmitter(cfg: Config, s: State, i: nat, m: SubmitterMove)
    requires SubmitterCan(cfg, s, i, m)
    ensures Load(SubmitterDo(cfg, s, i, m)) < Load(s)
    ensures !m.Refuse? ==> Load(SubmitterDo(cfg, s, i, m)) == Load(s) - 1
  {
    var t := s.submitters[i];
    TallyUpdate(SubmitterCost, s.submitters, i, SubmitterNext(t, m));
    if m.Accept? { TallyAppend(JobCost, s.jobs, t.held.job); }
  }

  lemma LoadRepo(cfg: Config, s: State, r: nat, m: RepoMove)
    requires WalksInBounds(s) && RepoCan(cfg, s, r, m)
    ensures Load(RepoDo(cfg, s, r, m)) < Load(s)
    ensures !m.AbandonJob? ==> Load(RepoDo(cfg, s, r, m)) == Load(s) - 1
  {
    var s' := RepoDo(cfg, s, r, m);
    assert WalkInBounds(s.repoWorkers[r]);
    TallyUpdate(WorkerCost, s.repoWorkers, r, s'.repoWorkers[r]);
    if m.TakeJob? { TallyFirst(JobCost, s.jobs); }
  }

  lemma LoadIngest(cfg: Config, s: State, g: nat, m: IngestMove)
    requires IngestCan(cfg, s, g, m)
    ensures Load(IngestDo(cfg, s, g, m)) == Load(s) - 1
  {
    TallyUpdate(IngestCost, s.ingestWorkers, g, IngestDo(cfg, s, g, m).ingestWorkers[g]);
  }

  /** Each step other than a page request takes some of the load away, and exactly one unless it gives work up. */
  lemma LoadStep(cfg: Config, s: State, step: Step)
    requires WalksInBounds(s) && Steady(s) && Enabled(cfg, s, step) && !step.ListerStep?
    ensures Load(Apply(cfg, s, step)) < Load(s)
    ensures !s.cancelled ==> Load(Apply(cfg, s, step)) == Load(s) - 1
  {
    match step
    case SubmitterStep(i, m) => LoadSubmitter(cfg, s, i, m);
    case RepoStep(r, m) => LoadRepo(cfg, s, r, m);
    case IngestStep(g, m) => LoadIngest(cfg, s, g, m);
    case CollectorStep(m) =>
    case ContextStep(m) =>
  }

  lemma LoadListPage(cfg: Config, s: State)
    requires ListerCan(cfg, s, ListPage)
    ensures Load(ListerDo(cfg, s, ListPage))
         == Load(s) + ReposCost(s.lister.page, cfg.server[s.lister.cursor].repos, 0)
  {
    TallyAppend(SubmitterCost, s.submitters, Submitter(s.lister.page, cfg.server[s.lister.cursor].repos, 0, Nothing));
  }

  lemma MeasureListPage(cfg: Config, cursors: seq<string>, s: State)
    requires Finite(cfg, cursors) && ListedAlong(cfg, cursors, s) && Paged(s) && ListerCan(cfg, s, ListPage)
    ensures Measure(cfg, cursors, ListerDo(cfg, s, ListPage)) == Measure(cfg, cursors, s) - 1
  {
    var k := |s.log.listed|;
    var s' := ListerDo(cfg, s, ListPage);
    assert k < |cursors| - 1 ==> Names(cfg, cursors, k);
    LoadListPage(cfg, s);
    assert PagesCost(cfg, cursors, k)
        == 1 + ReposCost(k + 1, cfg.server[cursors[k]].repos, 0) + PagesCost(cfg, cursors, k + 1);
    assert !s'.lister.AtPage? ==> PagesCost(cfg, cursors, k + 1) == 0;
  }

  lemma MeasureListFail(cfg: Config, cursors: seq<string>, s: State)
    requires Finite(cfg, cursors) && ListedAlong(cfg, cursors, s) && ListerCan(cfg, s, ListFail)
    ensures Measure(cfg, cursors, ListerDo(cfg, s, ListFail)) < Measure(cfg, cursors, s)
    ensures !s.cancelled ==> Measure(cfg, cursors, ListerDo(cfg, s, ListFail)) == Measure(cfg, cursors, s) - 1
  {
    var k := |s.log.listed|;
    assert k < |cursors| - 1 ==> Names(cfg, cursors, k);
    assert !s.cancelled ==> PagesCost(cfg, cursors, k) == 1;
  }

  lemma ListerStays(cfg: Config, s: State, step: Step)
    requires Enabled(cfg, s, step) && !step.ListerStep?
    ensures Apply(cfg, s, step).lister == s.lister && Apply(cfg, s, step).log.listed == s.log.listed
  {
  }

  /** Over a finite listing every step brings the end nearer, cancelled or not; each step of an uncancelled pipeline
      is exactly one of the steps still to come. */
  lemma MeasureStep(cfg: Config, cursors: seq<string>, s: State, step: Step)
    requires Finite(cfg, cursors) && ListedAlong(cfg, cursors, s) && Shape(cfg, s) && Enabled(cfg, s, step)
    ensures Measure(cfg, cursors, Apply(cfg, s, step)) < Measure(cfg, cursors, s)
    ensures !s.cancelled ==> Measure(cfg, cursors, Apply(cfg, s, step)) == Measure(cfg, cursors, s) - 1
  {
    if step.ListerStep? {
      if step.lister.ListPage? { MeasureListPage(cfg, cursors, s); } else { MeasureListFail(cfg, cursors, s); }
    } else {
      LoadStep(cfg, s, step);
      ListerStays(cfg, s, step);
    }
  }

  lemma LoadInit(cfg: Config)
    ensures Load(Init(cfg)) == ShutdownCost(cfg)
  {
    TallyEach(WorkerCost, Init(cfg).repoWorkers, 1);
    TallyEach(IngestCost, Init(cfg).ingestWorkers, 1);
  }

  // ---- Every run over a finite listing ends

  lemma {:induction false} MeasureRun(cfg: Config, cursors: seq<string>, s: State, steps: seq<Step>)
    requires Finite(cfg, cursors) && ListedAlong(cfg, cursors, s) && Inv(cfg, s) && Legal(cfg, s, steps)
    ensures |steps| <= Measure(cfg, cursors, s)
    decreases |steps|
  {
    if steps == [] {
    } else {
      InvStep(cfg, s, steps[0]);
      var _ := ListedAlongStep(cfg, cursors, s, steps[0]);
      MeasureStep(cfg, cursors, s, steps[0]);
      MeasureRun(cfg, cursors, Apply(cfg, s, steps[0]), steps[1..]);
    }
  }

  /** Cancelled at any point or never: no run over a finite listing makes more steps than the listing brings
      and the shutdown takes. */
  lemma EveryRunEnds(cfg: Config, cursors: seq<string>, steps: seq<Step>)
    requires Finite(cfg, cursors) && Legal(cfg, Init(cfg), steps)
    ensures |steps| <= PagesCost(cfg, cursors, 0) + ShutdownCost(cfg)
  {
    InvInit(cfg);
    LoadInit(cfg);
    MeasureRun(cfg, cursors, Init(cfg), steps);
  }

  ghost predicate NoContextStep(steps: seq<Step>) {
    forall step <- steps :: !step.ContextStep?
  }

  ghost predicate Healthy(cfg: Config, cursors: seq<string>, s: State) {
    Finite(cfg, cursors) && ListedAlong(cfg, cursors, s) && Inv(cfg, s) && JobsComplete(s) && !s.cancelled
  }

  lemma UncancelledStep(cfg: Config, s: State, step: Step)
    requires Enabled(cfg, s, step) && !step.ContextStep?
    ensures Apply(cfg, s, step).cancelled == s.cancelled
  {
  }

  lemma HealthyStep(cfg: Config, cursors: seq<string>, s: State, step: Step)
    requires FetchesReturn(cfg) && Healthy(cfg, cursors, s) && Enabled(cfg, s, step) && !step.ContextStep?
    ensures Healthy(cfg, cursors, Apply(cfg, s, step))
    ensures Measure(cfg, cursors, Apply(cfg, s, step)) == Measure(cfg, cursors, s) - 1
  {
    InvStep(cfg, s, step);
    var _ := ListedAlongStep(cfg, cursors, s, step);
    JobsCompleteStep(cfg, s, step);
    MeasureStep(cfg, cursors, s, step);
    UncancelledStep(cfg, s, step);
  }

  lemma QuiescentMeasure(cfg: Config, cursors: seq<string>, s: State)
    requires Quiescent(s) && Sized(cfg, s) && Steady(s) && !s.cancelled
    ensures Measure(cfg, cursors, s) == ShutdownCost(cfg)
  {
    forall t <- s.submitters ensures SubmitterCost(t) == 0 { assert SubmitterDone(t); }
    TallyEach(SubmitterCost, s.submitters, 0);
    TallyEach(WorkerCost, s.repoWorkers, 1);
    TallyEach(IngestCost, s.ingestWorkers, 1);
  }

  lemma {:induction false} HealthyRun(cfg: Config, cursors: seq<string>, s: State, steps: seq<Step>)
    requires FetchesReturn(cfg) && Healthy(cfg, cursors, s) && Legal(cfg, s, steps) && NoContextStep(steps)
    ensures Healthy(cfg, cursors, After(cfg, s, steps))
    ensures Measure(cfg, cursors, After(cfg, s, steps)) == Measure(cfg, cursors, s) - |steps|
    decreases |steps|
  {
    if steps == [] {
    } else {
      assert steps[0] in steps;
      HealthyStep(cfg, cursors, s, steps[0]);
      assert NoContextStep(steps[1..]) by { forall t <- steps[1..] ensures t in steps {} }
      HealthyRun(cfg, cursors, Apply(cfg, s, steps[0]), steps[1..]);
    }
  }

  lemma HealthyInit(cfg: Config, cursors: seq<string>)
    requires Finite(cfg, cursors)
    ensures Healthy(cfg, cursors, Init(cfg))
    ensures Measure(cfg, cursors, Init(cfg)) == PagesCost(cfg, cursors, 0) + ShutdownCost(cfg)
  {
    InvInit(cfg);
    LoadInit(cfg);
  }

  /** From any healthy state the pipeline can be driven to rest, in as many steps as the measure says. */
  lemma DriveToRest(cfg: Config, cursors: seq<string>, s: State) returns (steps: seq<Step>)
    requires cfg.workers >= 1 && FetchesReturn(cfg) && Healthy(cfg, cursors, s)
    ensures NoContextStep(steps) && Legal(cfg, s, steps)
    ensures Quiescent(After(cfg, s, steps)) && |steps| == Measure(cfg, cursors, s) - ShutdownCost(cfg)
    ensures Quiescent(s) ==> steps == []
    decreases Measure(cfg, cursors, s)
  {
    if Quiescent(s) {
      steps := [];
      QuiescentMeasure(cfg, cursors, s);
    } else {
      var step := SomeStep(cfg, s);
      HealthyStep(cfg, cursors, s, step);
      var rest := DriveToRest(cfg, cursors, Apply(cfg, s, step));
      steps := [step] + rest;
      assert steps[1..] == rest;
    }
  }

  /** No scheduler can prolong or shorten an uncancelled backfill: a run is at rest exactly when it has made
      PagesCost(0) steps, whatever W is and whoever moved; it can never make more, and until then it can always
      go on. */
  lemma RunLength(cfg: Config, cursors: seq<string>, steps: seq<Step>)
    requires cfg.workers >= 1 && FetchesReturn(cfg) && Finite(cfg, cursors)
    requires Legal(cfg, Init(cfg), steps) && NoContextStep(steps)
    ensures |steps| <= PagesCost(cfg, cursors, 0)
    ensures Quiescent(After(cfg, Init(cfg), steps)) <==> |steps| == PagesCost(cfg, cursors, 0)
  {
    HealthyInit(cfg, cursors);
    HealthyRun(cfg, cursors, Init(cfg), steps);
    var s := After(cfg, Init(cfg), steps);
    var rest := DriveToRest(cfg, cursors, s);
  }
}
