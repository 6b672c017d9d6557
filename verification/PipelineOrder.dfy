/** One worker of each kind: the pipeline ingests in the order of the plain loop over the accepted jobs. */
module PipelineOrder {
  import opened Pipeline
  import opened PipelineLaws

  function HeldBack(w: IngestWorker): seq<Item> {
    if w.Holding? then [w.item] else []
  }

  /** The items a repo worker has still to send, in order. */
  function OwedInOrder(w: RepoWorker): seq<Item> {
    match w
    case Fetching(job, _) => ItemsFrom(job, 0)
    case Walking(job, next) => ItemsFrom(job, next)
    case AtSend(job, next) => ItemsFrom(job, next)
    case _ => []
  }

  /** The item whose ingest has been called and whose result has not been sent. */
  function Unreported(w: IngestWorker): seq<Item> {
    if w.Reporting? then [w.report.item] else []
  }

  function ReportItems(reports: seq<Report>): seq<Item> {
    if reports == [] then [] else ReportItems(reports[..|reports| - 1]) + [reports[|reports| - 1].item]
  }

  /** Items are ingested in the order they are received, and their results sent in that order. */
  ghost predicate IngestsInOrder(s: State) {
    && |s.ingestWorkers| == 1
    && s.log.received == s.log.ingested + HeldBack(s.ingestWorkers[0])
    && s.log.ingested == ReportItems(s.log.reported) + Unreported(s.ingestWorkers[0])
  }

  /** Items are emitted in the order of the loop over the jobs taken. */
  ghost predicate EmitsInOrder(s: State) {
    && |s.repoWorkers| == 1
    && (!s.cancelled ==> ItemsOfJobs(s.log.taken) == s.log.emitted + OwedInOrder(s.repoWorkers[0]))
  }

  lemma IngestsInOrderIngest(cfg: Config, s: State, g: nat, m: IngestMove)
    requires IngestsInOrder(s) && IngestCan(cfg, s, g, m)
    ensures IngestsInOrder(IngestDo(cfg, s, g, m))
  {
    if m.SendResult? {
      var reported := s.log.reported + [s.ingestWorkers[0].report];
      assert reported[..|reported| - 1] == s.log.reported;
    }
  }

  ghost predicate SameIngests(s: State, s': State) {
    && s'.ingestWorkers == s.ingestWorkers && s'.log.received == s.log.received && s'.log.ingested == s.log.ingested
    && s'.log.reported == s.log.reported
  }

  lemma IngestsInOrderStep(cfg: Config, s: State, step: Step)
    requires IngestsInOrder(s) && Enabled(cfg, s, step)
    ensures IngestsInOrder(Apply(cfg, s, step))
  {
    match step
    case ListerStep(m) => assert SameIngests(s, ListerDo(cfg, s, m));
    case SubmitterStep(i, m) => assert SameIngests(s, SubmitterDo(cfg, s, i, m));
    case RepoStep(r, m) => assert SameIngests(s, RepoDo(cfg, s, r, m));
    case IngestStep(g, m) => IngestsInOrderIngest(cfg, s, g, m);
    case CollectorStep(m) => assert SameIngests(s, CollectorDo(s, m));
    case ContextStep(m) => assert SameIngests(s, ContextDo(s, m));
  }

  ghost predicate SameWalks(s: State, s': State) {
    && s'.repoWorkers == s.repoWorkers && s'.log.taken == s.log.taken && s'.log.emitted == s.log.emitted
    && (s.cancelled ==> s'.cancelled)
  }

  lemma EmitsInOrderOther(cfg: Config, s: State, step: Step)
    requires EmitsInOrder(s) && !step.RepoStep? && Enabled(cfg, s, step)
    ensures EmitsInOrder(Apply(cfg, s, step))
  {
    match step
    case ListerStep(m) => assert SameWalks(s, ListerDo(cfg, s, m));
    case SubmitterStep(i, m) => assert SameWalks(s, SubmitterDo(cfg, s, i, m));
    case IngestStep(g, m) => assert SameWalks(s, IngestDo(cfg, s, g, m));
    case CollectorStep(m) => assert SameWalks(s, CollectorDo(s, m));
    case ContextStep(m) => assert SameWalks(s, ContextDo(s, m));
  }

  lemma EmitsInOrderTake(cfg: Config, s: State, r: nat)
    requires EmitsInOrder(s) && RepoCan(cfg, s, r, TakeJob)
    ensures EmitsInOrder(RepoDo(cfg, s, r, TakeJob))
  {
    var taken := s.log.taken + [s.jobs[0]];
    assert taken[..|taken| - 1] == s.log.taken;
    assert s.log.emitted + [] == s.log.emitted;
  }

  lemma SendKeepsOrder(emitted: seq<Item>, job: Job, k: nat)
    requires k < |JobPlan(job).items|
    ensures emitted + ItemsFrom(job, k) == (emitted + [Item(job, k)]) + ItemsFrom(job, k + 1)
  {
  }

  lemma EmitsInOrderSend(cfg: Config, s: State, r: nat)
    requires EmitsInOrder(s) && WalksInBounds(s) && RepoCan(cfg, s, r, SendItem)
    ensures EmitsInOrder(RepoDo(cfg, s, r, SendItem))
  {
    var w := s.repoWorkers[0];
    assert WalkInBounds(w);
    SendKeepsOrder(s.log.emitted, w.job, w.next);
  }

  lemma EmitsInOrderQuiet(cfg: Config, s: State, r: nat, m: RepoMove)
    requires EmitsInOrder(s) && Steady(s) && !s.cancelled && RepoCan(cfg, s, r, m) && !m.TakeJob? && !m.SendItem?
    ensures EmitsInOrder(RepoDo(cfg, s, r, m))
  {
    assert OwedInOrder(RepoNext(s.repoWorkers[0], m, s.repoWorkers[0].job)) == OwedInOrder(s.repoWorkers[0]);
  }

  lemma EmitsInOrderRepo(cfg: Config, s: State, r: nat, m: RepoMove)
    requires EmitsInOrder(s) && WalksInBounds(s) && Steady(s) && RepoCan(cfg, s, r, m)
    ensures EmitsInOrder(RepoDo(cfg, s, r, m))
  {
    if !s.cancelled {
      if m.TakeJob? {
        EmitsInOrderTake(cfg, s, r);
      } else if m.SendItem? {
        EmitsInOrderSend(cfg, s, r);
      } else {
        EmitsInOrderQuiet(cfg, s, r, m);
      }
    }
  }

  lemma EmitsInOrderStep(cfg: Config, s: State, step: Step)
    requires EmitsInOrder(s) && WalksInBounds(s) && Steady(s) && Enabled(cfg, s, step)
    ensures EmitsInOrder(Apply(cfg, s, step))
  {
    match step
    case RepoStep(r, m) => EmitsInOrderRepo(cfg, s, r, m);
    case _ => EmitsInOrderOther(cfg, s, step);
  }

  lemma {:induction false} InOrderRun(cfg: Config, s: State, steps: seq<Step>)
    requires IngestsInOrder(s) && EmitsInOrder(s) && Inv(cfg, s) && Legal(cfg, s, steps)
    ensures IngestsInOrder(After(cfg, s, steps)) && EmitsInOrder(After(cfg, s, steps))
    decreases |steps|
  {
    if steps == [] {
    } else {
      IngestsInOrderStep(cfg, s, steps[0]);
      EmitsInOrderStep(cfg, s, steps[0]);
      InvStep(cfg, s, steps[0]);
      InOrderRun(cfg, Apply(cfg, s, steps[0]), steps[1..]);
    }
  }

  /** With W = 1, in every reachable state and cancelled or not, the items emitted are the items ingested, then the
      one held, then those queued; and the items ingested are those whose results the collector has received, then
      those whose results are queued, then the one to be reported, all in the same order. Uncancelled, the items
      emitted are also the loop's items up to what the repo worker has still to send. */
  lemma SingleWorkerOrder(cfg: Config, s: State)
    requires cfg.workers == 1 && Reachable(cfg, s)
    ensures |s.repoWorkers| == |s.ingestWorkers| == 1
    ensures s.log.emitted == s.log.ingested + HeldBack(s.ingestWorkers[0]) + s.items
    ensures s.log.ingested == ReportItems(s.log.collected + s.results) + Unreported(s.ingestWorkers[0])
    ensures !s.cancelled ==> ItemsOfJobs(s.log.taken) == s.log.emitted + OwedInOrder(s.repoWorkers[0])
  {
    var steps :| Legal(cfg, Init(cfg), steps) && After(cfg, Init(cfg), steps) == s;
    InvInit(cfg);
    InOrderRun(cfg, Init(cfg), steps);
    ReachableInv(cfg, s);
  }

  /** So at rest ingest has been called in exactly the order of the sequential loop. */
  lemma SingleWorkerRefinesLoop(cfg: Config, s: State)
    requires cfg.workers == 1 && Reachable(cfg, s) && !s.cancelled && Quiescent(s)
    ensures s.log.ingested == ItemsOfJobs(s.log.accepted)
  {
    SingleWorkerOrder(cfg, s);
    assert s.repoWorkers[0] in s.repoWorkers && s.ingestWorkers[0] in s.ingestWorkers;
    assert s.log.taken == s.log.accepted by {
      ReachableInv(cfg, s);
    }
  }
}
