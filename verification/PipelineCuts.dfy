/** How far into each page a run has got: the beginnings of the pages, and what they weigh in jobs, in items and in
    fetches that never return. */
module PipelineCuts {
  import opened Errors
  import opened Bags
  import opened Pipeline
  import opened PipelineLaws
  import opened PipelineResults
  import opened Pagination
  import opened PipelineProgress

  datatype Weight = JobCount | ItemYield | TarPit

  /** A fetch that never returns yields no item and takes a worker out. */
  function WeightOf(wt: Weight, plan: Plan): nat {
    match wt
    case JobCount => 1
    case ItemYield => if plan.completes then |plan.items| else 0
    case TarPit => if plan.completes then 0 else 1
  }

  function JobWeight(wt: Weight): Job -> nat {
    (j: Job) => WeightOf(wt, j.listing.plan)
  }

  /** What the active repositories in the first n slots of a page weigh. */
  function UpTo(wt: Weight, repos: seq<Option<Listing>>, n: nat): nat {
    if n == 0 || n > |repos| then 0
    else UpTo(wt, repos, n - 1) + if FilterRepo(repos[n - 1]) then 0 else WeightOf(wt, repos[n - 1].value.plan)
  }

  /** The first n slots of a page. */
  datatype Cut = Cut(repos: seq<Option<Listing>>, n: nat)

  function CutWeight(wt: Weight): Cut -> nat {
    (c: Cut) => UpTo(wt, c.repos, c.n)
  }

  /** A beginning of each page along a path of cursors. */
  ghost predicate Selected(cfg: Config, p: seq<string>, cuts: seq<Cut>) {
    && Path(cfg, p) && Known(cfg, p) && |cuts| == |p|
    && forall i :: 0 <= i < |p| ==> p[i] in cfg.server && cuts[i].repos == cfg.server[p[i]].repos
                                    && cuts[i].n <= |cuts[i].repos|
  }

  lemma {:induction false} UpToMonotone(wt: Weight, repos: seq<Option<Listing>>, m: nat, n: nat)
    requires m <= n <= |repos|
    ensures UpTo(wt, repos, m) <= UpTo(wt, repos, n)
  {
    if m == n {
    } else {
      UpToMonotone(wt, repos, m, n - 1);
    }
  }

  lemma {:induction false} UpToPrefix(wt: Weight, repos: seq<Option<Listing>>, m: nat, n: nat)
    requires m <= n <= |repos|
    ensures UpTo(wt, repos[..n], m) == UpTo(wt, repos, m)
  {
    if m == 0 {
    } else {
      UpToPrefix(wt, repos, m - 1, n);
    }
  }

  // ---- What uncancelled actors hold

  function OfferedWeight(wt: Weight): Submitter -> nat {
    (t: Submitter) => UpTo(wt, t.repos, t.next)
  }

  function HeldWeight(wt: Weight): Submitter -> nat {
    (t: Submitter) => if t.held.Nothing? then 0 else WeightOf(wt, JobPlan(t.held.job))
  }

  /** Items of a walk begun that are still to be sent. */
  function WalkLeft(w: RepoWorker): nat {
    if (w.Walking? || w.AtSend?) && w.next <= |JobPlan(w.job).items| then |JobPlan(w.job).items| - w.next else 0
  }

  function WorkerWeight(wt: Weight): RepoWorker -> nat {
    (w: RepoWorker) =>
      match wt
      case JobCount => 0
      case ItemYield => if w.Fetching? then WeightOf(wt, JobPlan(w.job)) else WalkLeft(w)
      case TarPit => if InTarPit(w) then 1 else 0
  }

  /** Every offered job has been accepted or is still in its Submit. */
  ghost predicate AcceptLaw(wt: Weight, s: State) {
    Tally(OfferedWeight(wt), s.submitters) == Tally(HeldWeight(wt), s.submitters) + Tally(JobWeight(wt), s.log.accepted)
  }

  function Sent(wt: Weight, s: State): nat {
    if wt.ItemYield? then |s.log.emitted| else 0
  }

  /** What the jobs taken weigh is with the repo workers or has been sent. */
  ghost predicate TakenLaw(wt: Weight, s: State) {
    wt.JobCount? || Tally(JobWeight(wt), s.log.taken) == Sent(wt, s) + Tally(WorkerWeight(wt), s.repoWorkers)
  }

  ghost predicate Weighed(wt: Weight, s: State) {
    !s.cancelled ==> AcceptLaw(wt, s) && TakenLaw(wt, s)
  }

  lemma AcceptLawSubmitter(cfg: Config, wt: Weight, s: State, i: nat, m: SubmitterMove)
    requires AcceptLaw(wt, s) && SubmitterCan(cfg, s, i, m) && !m.Undo?
    requires s.submitters[i].next <= |s.submitters[i].repos|
    ensures AcceptLaw(wt, SubmitterDo(cfg, s, i, m))
  {
    var t' := SubmitterNext(s.submitters[i], m);
    TallyUpdate(HeldWeight(wt), s.submitters, i, t');
    TallyUpdate(OfferedWeight(wt), s.submitters, i, t');
    if m.Accept? { TallyAppend(JobWeight(wt), s.log.accepted, s.submitters[i].held.job); }
  }

  lemma AcceptLawLister(cfg: Config, wt: Weight, s: State, m: ListerMove)
    requires AcceptLaw(wt, s) && ListerCan(cfg, s, m)
    ensures AcceptLaw(wt, ListerDo(cfg, s, m))
  {
    if m.ListPage? {
      var t := Submitter(s.lister.page, cfg.server[s.lister.cursor].repos, 0, Nothing);
      TallyAppend(HeldWeight(wt), s.submitters, t);
      TallyAppend(OfferedWeight(wt), s.submitters, t);
    }
  }

  /** A repo worker takes the weight of a job on and gives it away item by item. */
  lemma WorkerShare(wt: Weight, w: RepoWorker, m: RepoMove, job: Job)
    requires RepoReady(w, m) && WalkInBounds(w) && !wt.JobCount? && !m.LeaveRepo? && !m.AbandonJob?
    ensures WorkerWeight(wt)(RepoNext(w, m, job)) + (if m.SendItem? && wt.ItemYield? then 1 else 0)
         == WorkerWeight(wt)(w) + if m.TakeJob? then WeightOf(wt, JobPlan(job)) else 0
  {
  }

  lemma TakenLawRepo(cfg: Config, wt: Weight, s: State, r: nat, m: RepoMove)
    requires TakenLaw(wt, s) && WalksInBounds(s) && RepoCan(cfg, s, r, m) && !s.cancelled && !m.LeaveRepo?
    ensures TakenLaw(wt, RepoDo(cfg, s, r, m))
  {
    var w := s.repoWorkers[r];
    assert WalkInBounds(w);
    var job := if m.TakeJob? then s.jobs[0] else w.job;
    if !wt.JobCount? { WorkerShare(wt, w, m, job); }
    TallyUpdate(WorkerWeight(wt), s.repoWorkers, r, RepoNext(w, m, job));
    if m.TakeJob? { TallyAppend(JobWeight(wt), s.log.taken, job); }
  }

  /** What the laws look at that a step of another kind leaves alone. */
  ghost predicate SameSubmitters(s: State, s': State) {
    s'.submitters == s.submitters && s'.log.accepted == s.log.accepted
  }

  ghost predicate SameWorkers(s: State, s': State) {
    && s'.repoWorkers == s.repoWorkers && s'.log.taken == s.log.taken && s'.log.emitted == s.log.emitted
  }

  lemma OtherActors(cfg: Config, s: State, step: Step)
    requires Enabled(cfg, s, step)
    ensures !step.ListerStep? && !step.SubmitterStep? ==> SameSubmitters(s, Apply(cfg, s, step))
    ensures !step.RepoStep? ==> SameWorkers(s, Apply(cfg, s, step))
    ensures s.cancelled ==> Apply(cfg, s, step).cancelled
  {
    match step
    case ListerStep(m) => assert SameWorkers(s, ListerDo(cfg, s, m));
    case SubmitterStep(i, m) => assert SameWorkers(s, SubmitterDo(cfg, s, i, m));
    case RepoStep(r, m) => assert SameSubmitters(s, RepoDo(cfg, s, r, m));
    case IngestStep(g, m) => assert SameSubmitters(s, IngestDo(cfg, s, g, m)) && SameWorkers(s, IngestDo(cfg, s, g, m));
    case CollectorStep(m) => assert SameSubmitters(s, CollectorDo(s, m)) && SameWorkers(s, CollectorDo(s, m));
    case ContextStep(m) => assert SameSubmitters(s, ContextDo(s, m)) && SameWorkers(s, ContextDo(s, m));
  }

  lemma WeighedStep(cfg: Config, wt: Weight, s: State, step: Step)
    requires Weighed(wt, s) && Shape(cfg, s) && Enabled(cfg, s, step)
    ensures Weighed(wt, Apply(cfg, s, step))
  {
    OtherActors(cfg, s, step);
    if !s.cancelled {
      match step
      case ListerStep(m) => AcceptLawLister(cfg, wt, s, m);
      case SubmitterStep(i, m) =>
        assert SubmitterFor(s.submitters[i], i + 1, s.log.listed[i]) && s.submitters[i] in s.submitters;
        AcceptLawSubmitter(cfg, wt, s, i, m);
      case RepoStep(r, m) => TakenLawRepo(cfg, wt, s, r, m);
      case _ =>
    }
  }

  lemma {:induction false} WeighedRun(cfg: Config, wt: Weight, s: State, steps: seq<Step>)
    requires Weighed(wt, s) && Inv(cfg, s) && Legal(cfg, s, steps)
    ensures Weighed(wt, After(cfg, s, steps))
    decreases |steps|
  {
    if steps == [] {
    } else {
      WeighedStep(cfg, wt, s, steps[0]);
      InvStep(cfg, s, steps[0]);
      WeighedRun(cfg, wt, Apply(cfg, s, steps[0]), steps[1..]);
    }
  }

  lemma WeighedInit(cfg: Config, wt: Weight)
    ensures Weighed(wt, Init(cfg))
  {
    TallyEach(WorkerWeight(wt), Init(cfg).repoWorkers, 0);
  }

  lemma ReachableWeighed(cfg: Config, wt: Weight, s: State)
    requires Reachable(cfg, s)
    ensures Weighed(wt, s)
  {
    var steps :| Legal(cfg, Init(cfg), steps) && After(cfg, Init(cfg), steps) == s;
    InvInit(cfg);
    WeighedInit(cfg, wt);
    WeighedRun(cfg, wt, Init(cfg), steps);
  }

  // ---- The jobs taken are the beginnings of the pages

  function OfPage(jobs: seq<Job>, page: nat): seq<Job> {
    if jobs == [] then []
    else OfPage(jobs[..|jobs| - 1], page) + if jobs[|jobs| - 1].page == page then [jobs[|jobs| - 1]] else []
  }

  lemma OfPageAppend(jobs: seq<Job>, job: Job, page: nat)
    ensures OfPage(jobs + [job], page) == OfPage(jobs, page) + if job.page == page then [job] else []
  {
    assert (jobs + [job])[..|jobs|] == jobs;
  }

  lemma {:induction false} OfPageFirst(jobs: seq<Job>, page: nat)
    requires jobs != []
    ensures OfPage(jobs, page) == (if jobs[0].page == page then [jobs[0]] else []) + OfPage(jobs[1..], page)
  {
    if |jobs| == 1 {
      assert jobs[1..] == [] && jobs[..0] == [];
    } else {
      var n := |jobs| - 1;
      OfPageFirst(jobs[..n], page);
      assert jobs[..n][1..] == jobs[1..][..n - 1];
    }
  }

  lemma {:induction false} OfNoPage(jobs: seq<Job>, page: nat)
    requires forall j <- jobs :: j.page != page
    ensures OfPage(jobs, page) == []
  {
    if jobs == [] {
    } else {
      assert forall j <- jobs[..|jobs| - 1] :: j in jobs;
      assert jobs[|jobs| - 1] in jobs;
      OfNoPage(jobs[..|jobs| - 1], page);
    }
  }

  lemma {:induction false} PageJobsGrow(page: nat, repos: seq<Option<Listing>>, n: nat, k: nat)
    requires k <= n < |repos|
    ensures PageJobs(page, repos[..n + 1], k)
         == PageJobs(page, repos[..n], k) + if FilterRepo(repos[n]) then [] else [Job(page, n, repos[n].value)]
    decreases n - k
  {
    if k == n {
      assert PageJobs(page, repos[..n + 1], n + 1) == [] && PageJobs(page, repos[..n], n) == [];
    } else {
      PageJobsGrow(page, repos, n, k + 1);
      assert repos[..n + 1][k] == repos[k] == repos[..n][k];
    }
  }

  /** The first job of a page from slot k on, and what the slots up to and with it weigh. */
  lemma {:induction false} FirstOfPage(page: nat, repos: seq<Option<Listing>>, k: nat)
    requires PageJobs(page, repos, k) != []
    ensures
      var j := PageJobs(page, repos, k)[0];
      && j.page == page && k <= j.slot < |repos|
      && PageJobs(page, repos, j.slot + 1) == PageJobs(page, repos, k)[1..]
      && forall wt :: UpTo(wt, repos, j.slot + 1) == UpTo(wt, repos, k) + WeightOf(wt, JobPlan(j))
    decreases |repos| - k
  {
    if FilterRepo(repos[k]) {
      FirstOfPage(page, repos, k + 1);
    }
  }

  function HeldSeq(t: Submitter): seq<Job> {
    if t.held.Nothing? then [] else [t.held.job]
  }

  /** Of page i + 1, the slots behind the cut that the submitter has gone past are in the jobs channel or in
      its hand. */
  ghost predicate PageQueue(s: State, cuts: seq<Cut>, i: nat)
    requires i < |cuts| == |s.submitters|
  {
    var t, c := s.submitters[i], cuts[i];
    && c.repos == t.repos && c.n <= t.next <= |t.repos|
    && OfPage(s.jobs, i + 1) + HeldSeq(t) == PageJobs(i + 1, t.repos[..t.next], c.n)
  }

  ghost predicate Queued(s: State, cuts: seq<Cut>) {
    |cuts| == |s.submitters| && forall i :: 0 <= i < |cuts| ==> PageQueue(s, cuts, i)
  }

  ghost predicate OnPages(jobs: seq<Job>, pages: nat) {
    forall j <- jobs :: 1 <= j.page <= pages
  }

  ghost predicate Weighs(cuts: seq<Cut>, taken: seq<Job>) {
    forall wt :: Tally(CutWeight(wt), cuts) == Tally(JobWeight(wt), taken)
  }

  /** The jobs taken are those of the cuts. */
  ghost predicate TakenAlong(s: State, cuts: seq<Cut>) {
    Queued(s, cuts) && OnPages(s.jobs, |cuts|) && Weighs(cuts, s.log.taken)
  }

  lemma TakenAlongPage(cfg: Config, s: State, cuts: seq<Cut>) returns (cuts': seq<Cut>)
    requires TakenAlong(s, cuts) && ListerCan(cfg, s, ListPage)
    ensures TakenAlong(ListerDo(cfg, s, ListPage), cuts')
  {
    var s' := ListerDo(cfg, s, ListPage);
    var repos := cfg.server[s.lister.cursor].repos;
    cuts' := cuts + [Cut(repos, 0)];
    forall wt ensures Tally(CutWeight(wt), cuts') == Tally(JobWeight(wt), s.log.taken) {
      TallyAppend(CutWeight(wt), cuts, Cut(repos, 0));
    }
    forall i | 0 <= i < |cuts'| ensures PageQueue(s', cuts', i) {
      if i == |cuts| {
        OfNoPage(s.jobs, i + 1);
      } else {
        assert PageQueue(s, cuts, i);
      }
    }
  }

  /** A submitter holds a job of its own page. */
  lemma HeldOfPage(s: State, cuts: seq<Cut>, i: nat)
    requires i < |cuts| == |s.submitters| && PageQueue(s, cuts, i) && !s.submitters[i].held.Nothing?
    ensures s.submitters[i].held.job.page == i + 1
  {
    var t := s.submitters[i];
    var queue := PageJobs(i + 1, t.repos[..t.next], cuts[i].n);
    assert queue[|queue| - 1] == t.held.job;
    PageJobsOnce(i + 1, t.repos[..t.next], cuts[i].n, t.held.job);
  }

  lemma TakeMovesCut(s: State, cuts: seq<Cut>, i: nat)
    requires i < |cuts| == |s.submitters| && PageQueue(s, cuts, i) && s.jobs != [] && s.jobs[0].page == i + 1
    ensures
      var t, c, j := s.submitters[i], cuts[i], s.jobs[0];
      && j.slot < t.next
      && OfPage(s.jobs[1..], i + 1) + HeldSeq(t) == PageJobs(i + 1, t.repos[..t.next], j.slot + 1)
      && forall wt :: UpTo(wt, c.repos, j.slot + 1) == UpTo(wt, c.repos, c.n) + WeightOf(wt, JobPlan(j))
  {
    var t, c, j := s.submitters[i], cuts[i], s.jobs[0];
    var seen := t.repos[..t.next];
    OfPageFirst(s.jobs, i + 1);
    assert OfPage(s.jobs, i + 1) + HeldSeq(t) == [j] + (OfPage(s.jobs[1..], i + 1) + HeldSeq(t));
    FirstOfPage(i + 1, seen, c.n);
    forall wt ensures UpTo(wt, c.repos, j.slot + 1) == UpTo(wt, c.repos, c.n) + WeightOf(wt, JobPlan(j)) {
      UpToPrefix(wt, t.repos, j.slot + 1, t.next);
      UpToPrefix(wt, t.repos, c.n, t.next);
      assert UpTo(wt, seen, j.slot + 1) == UpTo(wt, seen, c.n) + WeightOf(wt, JobPlan(j));
    }
  }

  lemma PageQueueAccept(cfg: Config, s: State, cuts: seq<Cut>, i: nat, k: nat)
    requires TakenAlong(s, cuts) && SubmitterCan(cfg, s, i, Accept) && k < |cuts|
    ensures PageQueue(SubmitterDo(cfg, s, i, Accept), cuts, k)
  {
    assert PageQueue(s, cuts, i) && PageQueue(s, cuts, k);
    HeldOfPage(s, cuts, i);
    OfPageAppend(s.jobs, s.submitters[i].held.job, k + 1);
  }

  lemma PageQueueOffer(cfg: Config, s: State, cuts: seq<Cut>, i: nat, m: SubmitterMove, k: nat)
    requires TakenAlong(s, cuts) && SubmitterCan(cfg, s, i, m) && (m.SkipRepo? || m.Offer?) && k < |cuts|
    requires s.submitters[i].page == i + 1
    ensures PageQueue(SubmitterDo(cfg, s, i, m), cuts, k)
  {
    assert PageQueue(s, cuts, k);
    if k == i {
      PageJobsGrow(i + 1, s.submitters[i].repos, s.submitters[i].next, cuts[i].n);
    }
  }

  lemma TakenAlongSubmitter(cfg: Config, s: State, cuts: seq<Cut>, i: nat, m: SubmitterMove)
    requires TakenAlong(s, cuts) && Paged(s) && SubmitterCan(cfg, s, i, m) && !m.Refuse? && !m.Undo?
    ensures TakenAlong(SubmitterDo(cfg, s, i, m), cuts)
  {
    assert SubmitterFor(s.submitters[i], i + 1, s.log.listed[i]) && PageQueue(s, cuts, i);
    if m.Accept? { HeldOfPage(s, cuts, i); }
    forall k | 0 <= k < |cuts| ensures PageQueue(SubmitterDo(cfg, s, i, m), cuts, k) {
      if m.Accept? { PageQueueAccept(cfg, s, cuts, i, k); } else { PageQueueOffer(cfg, s, cuts, i, m, k); }
    }
  }

  /** The cut of a page behind one of its jobs. */
  function CutBehind(cuts: seq<Cut>, j: Job): seq<Cut>
    requires 1 <= j.page <= |cuts|
  {
    cuts[j.page - 1 := Cut(cuts[j.page - 1].repos, j.slot + 1)]
  }

  lemma PageQueueTake(cfg: Config, s: State, cuts: seq<Cut>, r: nat, k: nat)
    requires Queued(s, cuts) && RepoCan(cfg, s, r, TakeJob) && k < |cuts| && 1 <= s.jobs[0].page <= |cuts|
    ensures PageQueue(RepoDo(cfg, s, r, TakeJob), CutBehind(cuts, s.jobs[0]), k)
  {
    assert PageQueue(s, cuts, k);
    if k == s.jobs[0].page - 1 {
      TakeMovesCut(s, cuts, k);
    } else {
      OfPageFirst(s.jobs, k + 1);
    }
  }

  lemma QueuedTake(cfg: Config, s: State, cuts: seq<Cut>, r: nat)
    requires Queued(s, cuts) && RepoCan(cfg, s, r, TakeJob) && 1 <= s.jobs[0].page <= |cuts|
    ensures Queued(RepoDo(cfg, s, r, TakeJob), CutBehind(cuts, s.jobs[0]))
  {
    forall k | 0 <= k < |cuts| ensures PageQueue(RepoDo(cfg, s, r, TakeJob), CutBehind(cuts, s.jobs[0]), k) {
      PageQueueTake(cfg, s, cuts, r, k);
    }
  }

  lemma WeighsTake(s: State, cuts: seq<Cut>)
    requires Queued(s, cuts) && Weighs(cuts, s.log.taken) && s.jobs != [] && 1 <= s.jobs[0].page <= |cuts|
    ensures Weighs(CutBehind(cuts, s.jobs[0]), s.log.taken + [s.jobs[0]])
  {
    var j := s.jobs[0];
    var i := j.page - 1;
    var c := Cut(cuts[i].repos, j.slot + 1);
    assert PageQueue(s, cuts, i);
    TakeMovesCut(s, cuts, i);
    forall wt ensures Tally(CutWeight(wt), cuts[i := c]) == Tally(JobWeight(wt), s.log.taken + [j]) {
      assert CutWeight(wt)(c) == CutWeight(wt)(cuts[i]) + JobWeight(wt)(j);
      TallyMove(CutWeight(wt), cuts, i, c, JobWeight(wt), s.log.taken, j);
    }
  }

  /** Taking a job moves the cut of its page behind it. */
  lemma TakenAlongTake(cfg: Config, s: State, cuts: seq<Cut>, r: nat)
    requires TakenAlong(s, cuts) && RepoCan(cfg, s, r, TakeJob) && 1 <= s.jobs[0].page <= |cuts|
    ensures TakenAlong(RepoDo(cfg, s, r, TakeJob), CutBehind(cuts, s.jobs[0]))
  {
    QueuedTake(cfg, s, cuts, r);
    WeighsTake(s, cuts);
    assert OnPages(s.jobs[1..], |cuts|) by { assert forall j <- s.jobs[1..] :: j in s.jobs; }
  }

  lemma QueuesStay(cfg: Config, s: State, step: Step)
    requires Enabled(cfg, s, step) && step != ListerStep(ListPage) && !step.SubmitterStep?
    requires step.RepoStep? ==> !step.repo.TakeJob?
    ensures
      var s' := Apply(cfg, s, step);
      s'.submitters == s.submitters && s'.jobs == s.jobs && s'.log.taken == s.log.taken
  {
    match step
    case ListerStep(m) =>
    case RepoStep(r, m) =>
    case IngestStep(g, m) =>
    case CollectorStep(m) =>
    case ContextStep(m) =>
  }

  lemma TakenAlongStep(cfg: Config, s: State, step: Step, cuts: seq<Cut>) returns (cuts': seq<Cut>)
    requires TakenAlong(s, cuts) && Shape(cfg, s) && Enabled(cfg, s, step) && !Apply(cfg, s, step).cancelled
    ensures TakenAlong(Apply(cfg, s, step), cuts')
  {
    OtherActors(cfg, s, step);
    cuts' := cuts;
    if step == ListerStep(ListPage) {
      cuts' := TakenAlongPage(cfg, s, cuts);
    } else if step.SubmitterStep? {
      assert s.submitters[step.i] in s.submitters;
      TakenAlongSubmitter(cfg, s, cuts, step.i, step.submitter);
    } else if step.RepoStep? && step.repo.TakeJob? {
      assert s.jobs[0] in s.jobs;
      cuts' := CutBehind(cuts, s.jobs[0]);
      TakenAlongTake(cfg, s, cuts, step.r);
    } else {
      QueuesStay(cfg, s, step);
      forall i | 0 <= i < |cuts| ensures PageQueue(Apply(cfg, s, step), cuts, i) { assert PageQueue(s, cuts, i); }
    }
  }

  lemma {:induction false} CancelledStays(cfg: Config, s: State, steps: seq<Step>)
    requires Legal(cfg, s, steps) && s.cancelled
    ensures After(cfg, s, steps).cancelled
    decreases |steps|
  {
    if steps == [] {
    } else {
      OtherActors(cfg, s, steps[0]);
      CancelledStays(cfg, Apply(cfg, s, steps[0]), steps[1..]);
    }
  }

  lemma {:induction false} TakenAlongRun(cfg: Config, s: State, steps: seq<Step>, cuts: seq<Cut>)
    returns (cuts': seq<Cut>)
    requires TakenAlong(s, cuts) && Inv(cfg, s) && Legal(cfg, s, steps) && !After(cfg, s, steps).cancelled
    ensures TakenAlong(After(cfg, s, steps), cuts')
    decreases |steps|
  {
    if steps == [] {
      cuts' := cuts;
    } else {
      var next := Apply(cfg, s, steps[0]);
      if next.cancelled { CancelledStays(cfg, next, steps[1..]); }
      cuts' := TakenAlongStep(cfg, s, steps[0], cuts);
      InvStep(cfg, s, steps[0]);
      cuts' := TakenAlongRun(cfg, next, steps[1..], cuts');
    }
  }

  /** First in, first out, page by page: what an uncancelled run has taken is a beginning of each page it has listed. */
  lemma ReachableTaken(cfg: Config, s: State) returns (cuts: seq<Cut>)
    requires Reachable(cfg, s) && !s.cancelled
    ensures TakenAlong(s, cuts)
  {
    var steps :| Legal(cfg, Init(cfg), steps) && After(cfg, Init(cfg), steps) == s;
    InvInit(cfg);
    cuts := TakenAlongRun(cfg, Init(cfg), steps, []);
  }

  // ---- How many items the walks begun can have

  /** Items sent, and items of walks begun that are still to be sent. */
  ghost function Begun(s: State): nat {
    |s.log.emitted| + Tally(WalkLeft, s.repoWorkers)
  }

  /** A further walk can begin. */
  ghost predicate Lively(s: State) {
    !s.cancelled && exists w <- s.repoWorkers :: !InTarPit(w)
  }

  lemma BegunRepo(cfg: Config, s: State, r: nat, m: RepoMove)
    requires WalksInBounds(s) && RepoCan(cfg, s, r, m)
    ensures Begun(RepoDo(cfg, s, r, m)) <= Begun(s) || m.StartWalk?
  {
    assert WalkInBounds(s.repoWorkers[r]);
    TallyUpdate(WalkLeft, s.repoWorkers, r, RepoDo(cfg, s, r, m).repoWorkers[r]);
  }

  lemma LivelyRepo(cfg: Config, s: State, r: nat, m: RepoMove)
    requires Steady(s) && RepoCan(cfg, s, r, m)
    ensures m.StartWalk? ==> Lively(RepoDo(cfg, s, r, m))
    ensures Lively(RepoDo(cfg, s, r, m)) ==> Lively(s)
  {
    var s' := RepoDo(cfg, s, r, m);
    assert s.repoWorkers[r] in s.repoWorkers;
    if m.StartWalk? { assert s'.repoWorkers[r] in s'.repoWorkers; }
    if Lively(s') {
      var k :| 0 <= k < |s'.repoWorkers| && !InTarPit(s'.repoWorkers[k]);
      assert s.repoWorkers[k] in s.repoWorkers;
    }
  }

  /** Once no further walk can begin none ever will, and the items of the walks begun get no more. */
  lemma LivelyStep(cfg: Config, s: State, step: Step)
    requires Shape(cfg, s) && Enabled(cfg, s, step)
    ensures Lively(Apply(cfg, s, step)) ==> Lively(s)
    ensures !Lively(Apply(cfg, s, step)) ==> Begun(Apply(cfg, s, step)) <= Begun(s)
    ensures |Apply(cfg, s, step).log.accepted| >= |s.log.accepted|
  {
    OtherActors(cfg, s, step);
    match step
    case SubmitterStep(i, m) =>
    case RepoStep(r, m) =>
      BegunRepo(cfg, s, r, m);
      LivelyRepo(cfg, s, r, m);
    case _ =>
  }

  lemma {:induction false} DullRun(cfg: Config, s: State, steps: seq<Step>)
    requires Inv(cfg, s) && Legal(cfg, s, steps) && !Lively(s)
    ensures Begun(After(cfg, s, steps)) <= Begun(s)
    ensures |After(cfg, s, steps).log.accepted| >= |s.log.accepted|
    decreases |steps|
  {
    if steps == [] {
    } else {
      LivelyStep(cfg, s, steps[0]);
      InvStep(cfg, s, steps[0]);
      DullRun(cfg, Apply(cfg, s, steps[0]), steps[1..]);
    }
  }

  /** The last lively state of a run. */
  lemma {:induction false} LastLively(cfg: Config, s: State, steps: seq<Step>) returns (t: State)
    requires Reachable(cfg, s) && Legal(cfg, s, steps) && Lively(s)
    ensures Reachable(cfg, t) && Lively(t)
    ensures Begun(After(cfg, s, steps)) <= Begun(t) && |After(cfg, s, steps).log.accepted| >= |t.log.accepted|
    decreases |steps|
  {
    t := s;
    if steps == [] {
    } else {
      var next := Apply(cfg, s, steps[0]);
      ReachableInv(cfg, s);
      ReachableStep(cfg, s, steps[0]);
      ReachableInv(cfg, next);
      LivelyStep(cfg, s, steps[0]);
      if Lively(next) {
        t := LastLively(cfg, next, steps[1..]);
      } else {
        DullRun(cfg, next, steps[1..]);
      }
    }
  }

  lemma LivelyBegun(cfg: Config, s: State, cuts: seq<Cut>)
    requires Reachable(cfg, s) && Lively(s) && TakenAlong(s, cuts)
    ensures Tally(CutWeight(TarPit), cuts) < cfg.workers
    ensures Begun(s) <= Tally(CutWeight(ItemYield), cuts)
    ensures Tally(CutWeight(JobCount), cuts) <= |s.log.accepted|
  {
    ReachableInv(cfg, s);
    ReachableWeighed(cfg, TarPit, s);
    ReachableWeighed(cfg, ItemYield, s);
    TallyShort(WorkerWeight(TarPit), s.repoWorkers);
    assert exists w <- s.repoWorkers :: WorkerWeight(TarPit)(w) == 0;
    TallyAtMost(WalkLeft, s.repoWorkers, WorkerWeight(ItemYield), s.repoWorkers);
    TallyEach(JobWeight(JobCount), s.log.taken, 1);
  }

  /** In any reachable state, cancelled or not, the items of walks begun come from beginnings of the pages that keep
      fewer than W workers in fetches that never return, and as many jobs as these beginnings have been accepted. */
  lemma BegunWithinCuts(cfg: Config, s: State) returns (p: seq<string>, cuts: seq<Cut>)
    requires cfg.workers >= 1 && Reachable(cfg, s) && Begun(s) > 0
    ensures Selected(cfg, p, cuts) && Tally(CutWeight(TarPit), cuts) < cfg.workers
    ensures Begun(s) <= Tally(CutWeight(ItemYield), cuts)
    ensures Tally(CutWeight(JobCount), cuts) <= |s.log.accepted|
  {
    var steps :| Legal(cfg, Init(cfg), steps) && After(cfg, Init(cfg), steps) == s;
    assert Legal(cfg, Init(cfg), []) && After(cfg, Init(cfg), []) == Init(cfg);
    assert Init(cfg).repoWorkers[0] in Init(cfg).repoWorkers;
    var t := LastLively(cfg, Init(cfg), steps);
    ReachableInv(cfg, t);
    cuts := ReachableTaken(cfg, t);
    LivelyBegun(cfg, t, cuts);
    assert t.log.listed != [];
    p := ReachablePages(cfg, t);
    forall i | 0 <= i < |p|
      ensures p[i] in cfg.server && cuts[i].repos == cfg.server[p[i]].repos && cuts[i].n <= |cuts[i].repos|
    {
      assert p[i] in p && PageQueue(t, cuts, i) && SubmitterFor(t.submitters[i], i + 1, t.log.listed[i]);
    }
  }

  // ---- Driving a run to chosen cuts

  ghost function Stops(cuts: seq<Cut>): seq<nat> {
    seq(|cuts|, i requires 0 <= i < |cuts| => cuts[i].n)
  }

  /** Uncancelled on the way to the cuts, which do not hold all the workers up. */
  ghost predicate Driving(cfg: Config, s: State, cuts: seq<Cut>) {
    && Reachable(cfg, s) && !s.cancelled && WithinStops(s, Stops(cuts))
    && (forall i :: 0 <= i < |cuts| ==> cuts[i].repos == s.submitters[i].repos)
    && Tally(CutWeight(TarPit), cuts) < cfg.workers
  }

  /** What has been taken is within the cuts. */
  lemma TakenWithinCuts(cfg: Config, s: State, cuts: seq<Cut>, wt: Weight)
    requires Driving(cfg, s, cuts) && QueueLaw(s)
    ensures Tally(JobWeight(wt), s.log.taken) <= Tally(CutWeight(wt), cuts)
  {
    ReachableWeighed(cfg, wt, s);
    TallyConcat(JobWeight(wt), s.log.taken, s.jobs);
    forall i | 0 <= i < |cuts| ensures OfferedWeight(wt)(s.submitters[i]) <= CutWeight(wt)(cuts[i]) {
      UpToMonotone(wt, cuts[i].repos, s.submitters[i].next, Stops(cuts)[i]);
    }
    TallyAtMost(OfferedWeight(wt), s.submitters, CutWeight(wt), cuts);
  }

  /** So there is a worker to go on with. */
  lemma SpareWorker(cfg: Config, s: State, cuts: seq<Cut>)
    requires Driving(cfg, s, cuts)
    ensures exists w <- s.repoWorkers :: !InTarPit(w)
  {
    ReachableInv(cfg, s);
    ReachableWeighed(cfg, TarPit, s);
    TakenWithinCuts(cfg, s, cuts, TarPit);
    TallyShort(WorkerWeight(TarPit), s.repoWorkers);
    var w :| w in s.repoWorkers && WorkerWeight(TarPit)(w) == 0;
  }

  lemma PagesStay(cfg: Config, s: State, step: Step)
    requires Enabled(cfg, s, step) && !step.ListerStep?
    ensures
      var s' := Apply(cfg, s, step);
      && |s'.submitters| == |s.submitters|
      && forall i :: 0 <= i < |s.submitters| ==> s'.submitters[i].repos == s.submitters[i].repos
  {
    OtherActors(cfg, s, step);
  }

  lemma ReachableLoad(cfg: Config, s: State, step: Step)
    requires Reachable(cfg, s) && Enabled(cfg, s, step) && !step.ListerStep?
    ensures Reachable(cfg, Apply(cfg, s, step)) && Load(Apply(cfg, s, step)) < Load(s)
  {
    ReachableInv(cfg, s);
    ReachableStep(cfg, s, step);
    LoadStep(cfg, s, step);
  }

  lemma DrivingStep(cfg: Config, s: State, cuts: seq<Cut>, step: Step)
    requires Driving(cfg, s, cuts) && Enabled(cfg, s, step)
    requires !step.ListerStep? && !step.ContextStep? && WithinStops(Apply(cfg, s, step), Stops(cuts))
    ensures Driving(cfg, Apply(cfg, s, step), cuts) && Load(Apply(cfg, s, step)) < Load(s)
  {
    ReachableLoad(cfg, s, step);
    UncancelledStep(cfg, s, step);
    PagesStay(cfg, s, step);
  }

  lemma DryWeighs(cfg: Config, wt: Weight, s: State, cuts: seq<Cut>)
    requires Driving(cfg, s, cuts) && Dry(s, Stops(cuts))
    ensures Tally(JobWeight(wt), s.log.accepted) == Tally(CutWeight(wt), cuts)
  {
    ReachableWeighed(cfg, wt, s);
    forall i | 0 <= i < |cuts|
      ensures OfferedWeight(wt)(s.submitters[i]) == CutWeight(wt)(cuts[i]) && HeldWeight(wt)(s.submitters[i]) == 0
    {
      assert StoppedAt(s.submitters[i], Stops(cuts)[i]);
    }
    TallyEach(HeldWeight(wt), s.submitters, 0);
    TallyAtMost(OfferedWeight(wt), s.submitters, CutWeight(wt), cuts);
    TallyAtMost(CutWeight(wt), cuts, OfferedWeight(wt), s.submitters);
  }

  lemma DryHoldsNothing(cfg: Config, s: State, cuts: seq<Cut>)
    requires Driving(cfg, s, cuts) && Dry(s, Stops(cuts))
    ensures Bag(HeldJob, s.submitters) == multiset{}
  {
    forall t <- s.submitters ensures t.held.Nothing? {
      var i :| 0 <= i < |s.submitters| && s.submitters[i] == t;
      assert StoppedAt(t, Stops(cuts)[i]);
    }
    BagEmpty(HeldJob, s.submitters);
  }

  /** At the cuts, with nothing left to do ahead of the items channel: every job is accepted, every item sent. */
  lemma DryAtCuts(cfg: Config, s: State, cuts: seq<Cut>)
    requires Driving(cfg, s, cuts) && Dry(s, Stops(cuts)) && QueueLaw(s)
    ensures |s.log.accepted| == Tally(CutWeight(JobCount), cuts)
    ensures |s.log.emitted| == Tally(CutWeight(ItemYield), cuts)
  {
    DryWeighs(cfg, JobCount, s, cuts);
    TallyEach(JobWeight(JobCount), s.log.accepted, 1);
    DryWeighs(cfg, ItemYield, s, cuts);
    ReachableWeighed(cfg, ItemYield, s);
    TallyEach(WorkerWeight(ItemYield), s.repoWorkers, 0);
    assert s.log.accepted == s.log.taken;
  }

  /** With all the pages of a selection listed and nothing else done, the drive can begin. */
  lemma ReadyToDrive(cfg: Config, p: seq<string>, cuts: seq<Cut>) returns (s: State)
    requires Selected(cfg, p, cuts) && Tally(CutWeight(TarPit), cuts) < cfg.workers
    ensures Driving(cfg, s, cuts)
    ensures s == Init(cfg).(lister := s.lister, submitters := s.submitters,
                            log := Init(cfg).log.(listed := s.log.listed))
  {
    assert p[..|p|] == p;
    s := ListFirst(cfg, p, |p|);
    ReachableInv(cfg, s);
    forall i | 0 <= i < |p|
      ensures s.submitters[i].repos == cuts[i].repos && s.submitters[i].next == 0
    {
      assert SubmitterFor(s.submitters[i], i + 1, s.log.listed[i]) && s.submitters[i] in s.submitters;
    }
  }

  // ---- Listings whose fetches return: whole pages

  lemma {:induction false} ItemsFromSize(job: Job, k: nat)
    requires k <= |JobPlan(job).items|
    ensures |ItemsFrom(job, k)| == |JobPlan(job).items| - k
    decreases |JobPlan(job).items| - k
  {
    if k == |JobPlan(job).items| {
    } else {
      ItemsFromSize(job, k + 1);
    }
  }

  lemma {:induction false} PageItems(page: nat, repos: seq<Option<Listing>>, n: nat)
    requires n <= |repos| && PageCompletes(repos)
    ensures |ItemsOfJobs(PageJobs(page, repos[..n], 0))| == UpTo(ItemYield, repos, n)
  {
    if n == 0 {
      assert PageJobs(page, repos[..0], 0) == [];
    } else {
      PageItems(page, repos, n - 1);
      PageJobsGrow(page, repos, n - 1, 0);
      assert repos[n - 1] in repos;
      var before := PageJobs(page, repos[..n - 1], 0);
      if FilterRepo(repos[n - 1]) {
        assert before + [] == before;
      } else {
        var job := Job(page, n - 1, repos[n - 1].value);
        ItemsOfJobsAppend(before, job);
        ItemsFromSize(job, 0);
      }
    }
  }

  function WholePages(pages: seq<seq<Option<Listing>>>): (cuts: seq<Cut>)
    ensures |cuts| == |pages|
  {
    seq(|pages|, i requires 0 <= i < |pages| => Cut(pages[i], |pages[i]|))
  }

  lemma {:induction false} PagesItems(pages: seq<seq<Option<Listing>>>)
    requires forall repos <- pages :: PageCompletes(repos)
    ensures Tally(CutWeight(ItemYield), WholePages(pages)) == |NestedItems(pages)|
  {
    if pages == [] {
    } else {
      var n := |pages| - 1;
      assert forall repos <- pages[..n] :: repos in pages;
      PagesItems(pages[..n]);
      assert WholePages(pages)[..n] == WholePages(pages[..n]);
      NestedItemsLast(pages);
      assert pages[n] in pages && pages[n][..|pages[n]|] == pages[n];
      PageItems(n + 1, pages[n], |pages[n]|);
    }
  }

  lemma {:induction false} NoTarPits(repos: seq<Option<Listing>>, n: nat)
    requires PageCompletes(repos)
    ensures UpTo(TarPit, repos, n) == 0
  {
    if n == 0 || n > |repos| {
    } else {
      assert repos[n - 1] in repos;
      NoTarPits(repos, n - 1);
    }
  }

  lemma CutsHaveNoTarPits(cfg: Config, p: seq<string>, cuts: seq<Cut>)
    requires FetchesReturn(cfg) && Selected(cfg, p, cuts)
    ensures Tally(CutWeight(TarPit), cuts) == 0
  {
    forall c <- cuts ensures CutWeight(TarPit)(c) == 0 {
      var i :| 0 <= i < |cuts| && cuts[i] == c;
      NoTarPits(c.repos, c.n);
    }
    TallyEach(CutWeight(TarPit), cuts, 0);
  }

  /** The pages along a path, whole, are a selection; no other yields more. */
  lemma WholePagesYieldMost(cfg: Config, p: seq<string>, cuts: seq<Cut>)
    requires FetchesReturn(cfg) && Path(cfg, p) && Known(cfg, p)
    ensures Selected(cfg, p, WholePages(PagesAlong(cfg, p)))
    ensures Tally(CutWeight(ItemYield), WholePages(PagesAlong(cfg, p))) == |NestedItems(PagesAlong(cfg, p))|
    ensures Selected(cfg, p, cuts) ==> Tally(CutWeight(ItemYield), cuts) <= |NestedItems(PagesAlong(cfg, p))|
  {
    var pages := PagesAlong(cfg, p);
    var whole := WholePages(pages);
    assert forall i :: 0 <= i < |p| ==> p[i] in p;
    PagesItems(pages);
    if Selected(cfg, p, cuts) {
      forall i | 0 <= i < |cuts| ensures CutWeight(ItemYield)(cuts[i]) <= CutWeight(ItemYield)(whole[i]) {
        UpToMonotone(ItemYield, cuts[i].repos, cuts[i].n, |cuts[i].repos|);
      }
      TallyAtMost(CutWeight(ItemYield), cuts, CutWeight(ItemYield), whole);
    }
  }
}
