/** The backfill pipeline as a step machine. One step is one channel operation, counter update or operation call of
    one actor; which enabled step comes next is left open, as Go's scheduler and select leave it open. */
module Pipeline {
  import opened Errors
  import opened RateLimit
  import opened RepoWalk
  import opened Engines

  // ---- What the outside world answers

  /** How fetching one repository goes: how many operation calls WithRetry makes, whether WithRetry returns, what
      the walk sends. */
  datatype Plan = Plan(calls: nat, completes: bool, items: seq<RepoItem>)

  datatype Listing = Listing(did: string, active: bool, plan: Plan)

  /** One page of com.atproto.sync.listRepos. */
  datatype Page = Page(repos: seq<Option<Listing>>, cursor: Option<string>)

  /** `server` answers each cursor with a page; a cursor it does not know is an API error. */
  datatype Config = Config(workers: nat, limits: Limits, server: map<string, Page>)

  predicate FilterRepo(r: Option<Listing>) {
    r.None? || !r.value.active
  }

  /** A job is told apart by the page number and the slot it was listed in. */
  datatype Job = Job(page: nat, slot: nat, listing: Listing)

  /** An emitted item is told apart by its job and its position in the job's walk. */
  datatype Item = Item(job: Job, index: nat)

  function JobPlan(j: Job): Plan { j.listing.plan }

  // ---- The actors

  datatype Lister = AtPage(cursor: string, page: nat) | ListDone | ListFailed

  datatype Held = Nothing | Submitting(job: Job) | Undoing(job: Job)

  /** One goroutine per page; `held` is the job whose Submit is in progress or has just failed. */
  datatype Submitter = Submitter(page: nat, repos: seq<Option<Listing>>, next: nat, held: Held)

  datatype RepoWorker =
    | RepoIdle
    | Fetching(job: Job, left: nat)   // inside WithRetry, `left` calls to go
    | Walking(job: Job, next: nat)    // inside the walk callback
    | AtSend(job: Job, next: nat)     // at `items <- item`
    | RepoGone

  datatype Report = Report(item: Item, err: Option<GoError>)

  datatype IngestWorker =
    | IngestIdle
    | Holding(item: Item)             // inside WithRetry
    | Reporting(report: Report)       // at `p.results <- err`
    | IngestGone

  datatype Collector = Waiting | Received(item: Item) | CollectorGone

  /** What has happened so far; read by no step. */
  datatype Log = Log(
    listed: seq<seq<Option<Listing>>>,  // pages listed
    accepted: seq<Job>,                 // jobs Submit has accepted
    refused: multiset<Job>,             // jobs whose failed Submit has been undone
    taken: seq<Job>,                    // jobs received by repo workers
    emitted: seq<Item>,                 // items sent
    received: seq<Item>,                // items received by ingest workers
    dropped: multiset<Item>,            // items of jobs abandoned on cancellation
    ingested: seq<Item>,                // calls of ingest
    reported: seq<Report>,              // results sent
    collected: seq<Report>,             // results received by the collector
    consumed: multiset<Item>            // results received and subtracted
  )

  datatype State = State(
    lister: Lister,
    submitters: seq<Submitter>,
    jobs: seq<Job>,
    repoWorkers: seq<RepoWorker>,
    items: seq<Item>,
    ingestWorkers: seq<IngestWorker>,
    results: seq<Report>,
    collector: Collector,
    jobsInflight: int,
    cancelled: bool,
    done: bool,
    log: Log
  )

  function Capacity(cfg: Config): nat { 2 * cfg.workers }

  function Init(cfg: Config): State {
    State(AtPage("", 1), [], [], seq(cfg.workers, _ => RepoIdle), [], seq(cfg.workers, _ => IngestIdle), [],
          Waiting, 0, false, false, Log([], [], multiset{}, [], [], [], multiset{}, [], [], [], multiset{}))
  }

  // ---- Work still owed

  function ItemsFrom(job: Job, k: nat): seq<Item>
    decreases |JobPlan(job).items| - k
  {
    if k >= |JobPlan(job).items| then [] else [Item(job, k)] + ItemsFrom(job, k + 1)
  }

  /** The items a repo worker has still to send. */
  function Owed(w: RepoWorker): multiset<Item> {
    match w
    case Fetching(job, _) => multiset(ItemsFrom(job, 0))
    case Walking(job, next) => multiset(ItemsFrom(job, next))
    case AtSend(job, next) => multiset(ItemsFrom(job, next))
    case _ => multiset{}
  }

  /** The jobs of a page from slot k on: its active repositories. */
  function PageJobs(page: nat, repos: seq<Option<Listing>>, k: nat): seq<Job>
    decreases |repos| - k
  {
    if k >= |repos| then []
    else if FilterRepo(repos[k]) then PageJobs(page, repos, k + 1)
    else [Job(page, k, repos[k].value)] + PageJobs(page, repos, k + 1)
  }

  // ---- Steps, actor by actor

  datatype ListerMove = ListPage | ListFail
  datatype SubmitterMove = SkipRepo | Offer | Accept | Refuse | Undo
  datatype RepoMove = TakeJob | Fetch | StartWalk | ReadRecord | SendItem | FinishJob | AbandonJob | LeaveRepo
  datatype IngestMove = TakeItem | RunIngest(outcome: Option<GoError>) | SendResult | LeaveIngest
  datatype CollectorMove = Collect | Subtract | LeaveCollector
  datatype ContextMove = Cancel | CloseDone

  datatype Step =
    | ListerStep(lister: ListerMove)
    | SubmitterStep(i: nat, submitter: SubmitterMove)
    | RepoStep(r: nat, repo: RepoMove)
    | IngestStep(g: nat, ingest: IngestMove)
    | CollectorStep(collector: CollectorMove)
    | ContextStep(context: ContextMove)

  /** BackfillRepos' page loop and listRepos. */
  predicate ListerCan(cfg: Config, s: State, m: ListerMove) {
    && s.lister.AtPage?
    && match m
       case ListPage => s.lister.cursor in cfg.server
       case ListFail => s.lister.cursor !in cfg.server || s.cancelled
  }

  function ListerDo(cfg: Config, s: State, m: ListerMove): State
    requires ListerCan(cfg, s, m)
  {
    match m
    case ListPage =>
      var page := cfg.server[s.lister.cursor];
      s.(submitters := s.submitters + [Submitter(s.lister.page, page.repos, 0, Nothing)],
         lister := if page.cursor.None? || page.cursor.value == "" then ListDone
                   else AtPage(page.cursor.value, s.lister.page + 1),
         log := s.log.(listed := s.log.listed + [page.repos]))
    case ListFail => s.(lister := ListFailed)
  }

  /** The goroutine of one page: filter, count, Submit, and undo the count when Submit fails. */
  predicate SubmitterReady(t: Submitter, m: SubmitterMove) {
    match m
    case SkipRepo => t.held.Nothing? && t.next < |t.repos| && FilterRepo(t.repos[t.next])
    case Offer => t.held.Nothing? && t.next < |t.repos| && !FilterRepo(t.repos[t.next])
    case Accept => t.held.Submitting?
    case Refuse => t.held.Submitting?
    case Undo => t.held.Undoing?
  }

  function SubmitterNext(t: Submitter, m: SubmitterMove): Submitter
    requires SubmitterReady(t, m)
  {
    match m
    case SkipRepo => t.(next := t.next + 1)
    case Offer => t.(next := t.next + 1, held := Submitting(Job(t.page, t.next, t.repos[t.next].value)))
    case Accept => t.(held := Nothing)
    case Refuse => t.(held := Undoing(t.held.job))
    case Undo => t.(held := Nothing)
  }

  predicate SubmitterCan(cfg: Config, s: State, i: nat, m: SubmitterMove) {
    && i < |s.submitters| && SubmitterReady(s.submitters[i], m)
    && (m.Accept? ==> |s.jobs| < Capacity(cfg))
    && (m.Refuse? ==> s.cancelled || s.done)
  }

  function SubmitterDo(cfg: Config, s: State, i: nat, m: SubmitterMove): State
    requires SubmitterCan(cfg, s, i, m)
  {
    var t := s.submitters[i];
    var s' := s.(submitters := s.submitters[i := SubmitterNext(t, m)]);
    match m
    case SkipRepo => s'
    case Offer => s'.(jobsInflight := s.jobsInflight + 1)
    case Accept =>
      s'.(jobs := s.jobs + [t.held.job],
          log := s.log.(accepted := s.log.accepted + [t.held.job]))
    case Refuse => s'
    case Undo =>
      s'.(jobsInflight := s.jobsInflight - 1,
          log := s.log.(refused := s.log.refused + multiset{t.held.job}))
  }

  /** repoWorker: its select, the getRepo calls under WithRetry, and the walk that sends items. The calls get the
      worker's context, so once it is cancelled none reaches the walk any more; a walk already begun goes on. */
  predicate RepoReady(w: RepoWorker, m: RepoMove) {
    match m
    case TakeJob => w.RepoIdle?
    case Fetch => w.Fetching? && w.left > 0
    case StartWalk => w.Fetching? && w.left == 0 && JobPlan(w.job).completes
    case ReadRecord => w.Walking? && w.next < |JobPlan(w.job).items|
    case SendItem => w.AtSend?
    case FinishJob => w.Walking? && w.next >= |JobPlan(w.job).items|
    case AbandonJob => w.Fetching? || w.Walking?
    case LeaveRepo => w.RepoIdle?
  }

  /** `job`: the job a TakeJob receives. */
  function RepoNext(w: RepoWorker, m: RepoMove, job: Job): RepoWorker
    requires RepoReady(w, m)
  {
    match m
    case TakeJob => Fetching(job, JobPlan(job).calls)
    case Fetch => Fetching(w.job, w.left - 1)
    case StartWalk => Walking(w.job, 0)
    case ReadRecord => AtSend(w.job, w.next)
    case SendItem => Walking(w.job, w.next + 1)
    case FinishJob => RepoIdle
    case AbandonJob => RepoIdle
    case LeaveRepo => RepoGone
  }

  predicate RepoCan(cfg: Config, s: State, r: nat, m: RepoMove) {
    && r < |s.repoWorkers| && RepoReady(s.repoWorkers[r], m)
    && (m.TakeJob? ==> s.jobs != [])
    && (m.SendItem? ==> |s.items| < Capacity(cfg))
    && (m.Fetch? || m.StartWalk? ==> !s.cancelled)
    && (m.AbandonJob? ==> s.cancelled)
    && (m.LeaveRepo? ==> s.cancelled || s.done)
  }

  function RepoDo(cfg: Config, s: State, r: nat, m: RepoMove): State
    requires RepoCan(cfg, s, r, m)
  {
    var w := s.repoWorkers[r];
    if m.TakeJob? then
      s.(repoWorkers := s.repoWorkers[r := RepoNext(w, m, s.jobs[0])],
         jobs := s.jobs[1..],
         log := s.log.(taken := s.log.taken + [s.jobs[0]]))
    else if m.SendItem? then
      s.(repoWorkers := s.repoWorkers[r := RepoNext(w, m, w.job)],
         items := s.items + [Item(w.job, w.next)],
         log := s.log.(emitted := s.log.emitted + [Item(w.job, w.next)]))
    else if m.AbandonJob? then
      s.(repoWorkers := s.repoWorkers[r := RepoNext(w, m, w.job)],
         log := s.log.(dropped := s.log.dropped + Owed(w)))
    else if m.LeaveRepo? then s.(repoWorkers := s.repoWorkers[r := RepoGone])
    else s.(repoWorkers := s.repoWorkers[r := RepoNext(w, m, w.job)])
  }

  /** ingestWorker: its select, the ingest call under WithRetry, and the send on results. */
  predicate IngestReady(w: IngestWorker, m: IngestMove) {
    match m
    case TakeItem => w.IngestIdle?
    case RunIngest(outcome) => w.Holding? && NilOrJoined(outcome)
    case SendResult => w.Reporting?
    case LeaveIngest => w.IngestIdle?
  }

  predicate IngestCan(cfg: Config, s: State, g: nat, m: IngestMove) {
    && g < |s.ingestWorkers| && IngestReady(s.ingestWorkers[g], m)
    && (m.TakeItem? ==> s.items != [])
    && (m.SendResult? ==> |s.results| < Capacity(cfg))
    && (m.LeaveIngest? ==> s.cancelled || s.done)
  }

  function IngestDo(cfg: Config, s: State, g: nat, m: IngestMove): State
    requires IngestCan(cfg, s, g, m)
  {
    var w := s.ingestWorkers[g];
    match m
    case TakeItem =>
      s.(ingestWorkers := s.ingestWorkers[g := Holding(s.items[0])],
         items := s.items[1..],
         log := s.log.(received := s.log.received + [s.items[0]]))
    case RunIngest(outcome) =>
      s.(ingestWorkers := s.ingestWorkers[g := Reporting(Report(w.item, IngestReport(cfg.limits, outcome)))],
         log := s.log.(ingested := s.log.ingested + [w.item]))
    case SendResult =>
      s.(ingestWorkers := s.ingestWorkers[g := IngestIdle], results := s.results + [w.report],
         log := s.log.(reported := s.log.reported + [w.report]))
    case LeaveIngest => s.(ingestWorkers := s.ingestWorkers[g := IngestGone])
  }

  /** BackfillRepos' result loop. */
  predicate CollectorCan(s: State, m: CollectorMove) {
    match m
    case Collect => s.collector.Waiting? && s.results != []
    case Subtract => s.collector.Received?
    case LeaveCollector => s.collector.Waiting? && s.cancelled
  }

  function CollectorDo(s: State, m: CollectorMove): State
    requires CollectorCan(s, m)
  {
    match m
    case Collect =>
      s.(collector := Received(s.results[0].item), results := s.results[1..],
         log := s.log.(collected := s.log.collected + [s.results[0]]))
    case Subtract =>
      s.(collector := Waiting, jobsInflight := s.jobsInflight - 1,
         log := s.log.(consumed := s.log.consumed + multiset{s.collector.item}))
    case LeaveCollector => s.(collector := CollectorGone)
  }

  /** The context is cancelled from outside; Start's watcher then closes the done channel. */
  predicate ContextCan(s: State, m: ContextMove) {
    match m
    case Cancel => !s.cancelled
    case CloseDone => s.cancelled && !s.done
  }

  function ContextDo(s: State, m: ContextMove): State
    requires ContextCan(s, m)
  {
    match m
    case Cancel => s.(cancelled := true)
    case CloseDone => s.(done := true)
  }

  predicate Enabled(cfg: Config, s: State, step: Step) {
    match step
    case ListerStep(m) => ListerCan(cfg, s, m)
    case SubmitterStep(i, m) => SubmitterCan(cfg, s, i, m)
    case RepoStep(r, m) => RepoCan(cfg, s, r, m)
    case IngestStep(g, m) => IngestCan(cfg, s, g, m)
    case CollectorStep(m) => CollectorCan(s, m)
    case ContextStep(m) => ContextCan(s, m)
  }

  function Apply(cfg: Config, s: State, step: Step): State
    requires Enabled(cfg, s, step)
  {
    match step
    case ListerStep(m) => ListerDo(cfg, s, m)
    case SubmitterStep(i, m) => SubmitterDo(cfg, s, i, m)
    case RepoStep(r, m) => RepoDo(cfg, s, r, m)
    case IngestStep(g, m) => IngestDo(cfg, s, g, m)
    case CollectorStep(m) => CollectorDo(s, m)
    case ContextStep(m) => ContextDo(s, m)
  }

  // ---- The plain nested loop: for each page, for each active repository, for each item of its walk

  function NestedJobs(listed: seq<seq<Option<Listing>>>): seq<Job> {
    if listed == [] then []
    else NestedJobs(listed[..|listed| - 1]) + PageJobs(|listed|, listed[|listed| - 1], 0)
  }

  function ItemsOfJobs(jobs: seq<Job>): seq<Item> {
    if jobs == [] then [] else ItemsOfJobs(jobs[..|jobs| - 1]) + ItemsFrom(jobs[|jobs| - 1], 0)
  }

  function NestedItems(listed: seq<seq<Option<Listing>>>): seq<Item> {
    ItemsOfJobs(NestedJobs(listed))
  }

  // ---- Nothing left to do: listing is over, no job, item or result is queued or held

  predicate SubmitterDone(t: Submitter) {
    t.held.Nothing? && t.next >= |t.repos|
  }

  ghost predicate Quiescent(s: State) {
    && !s.lister.AtPage? && (forall t <- s.submitters :: SubmitterDone(t))
    && s.jobs == [] && (forall w <- s.repoWorkers :: w.RepoIdle?)
    && s.items == [] && (forall w <- s.ingestWorkers :: w.IngestIdle?)
    && s.results == [] && s.collector.Waiting?
  }

  // ---- Runs

  ghost predicate Legal(cfg: Config, s: State, steps: seq<Step>)
    decreases |steps|
  {
    steps != [] ==> Enabled(cfg, s, steps[0]) && Legal(cfg, Apply(cfg, s, steps[0]), steps[1..])
  }

  ghost function After(cfg: Config, s: State, steps: seq<Step>): State
    requires Legal(cfg, s, steps)
    decreases |steps|
  {
    if steps == [] then s else After(cfg, Apply(cfg, s, steps[0]), steps[1..])
  }

  ghost predicate Reachable(cfg: Config, s: State) {
    exists steps :: Legal(cfg, Init(cfg), steps) && After(cfg, Init(cfg), steps) == s
  }

  lemma RunBegins(cfg: Config, s: State, step: Step, rest: seq<Step>)
    requires Enabled(cfg, s, step) && Legal(cfg, Apply(cfg, s, step), rest)
    ensures Legal(cfg, s, [step] + rest)
    ensures After(cfg, s, [step] + rest) == After(cfg, Apply(cfg, s, step), rest)
  {
    assert ([step] + rest)[1..] == rest;
  }

  lemma {:induction false} RunExtends(cfg: Config, s: State, steps: seq<Step>, more: seq<Step>)
    requires Legal(cfg, s, steps) && Legal(cfg, After(cfg, s, steps), more)
    ensures Legal(cfg, s, steps + more)
    ensures After(cfg, s, steps + more) == After(cfg, After(cfg, s, steps), more)
    decreases |steps|
  {
    if steps == [] {
      assert steps + more == more;
    } else {
      assert (steps + more)[1..] == steps[1..] + more;
      RunExtends(cfg, Apply(cfg, s, steps[0]), steps[1..], more);
    }
  }

  lemma ReachableStep(cfg: Config, s: State, step: Step)
    requires Reachable(cfg, s) && Enabled(cfg, s, step)
    ensures Reachable(cfg, Apply(cfg, s, step))
  {
    var steps :| Legal(cfg, Init(cfg), steps) && After(cfg, Init(cfg), steps) == s;
    var one := [step];
    assert one[1..] == [];
    assert After(cfg, s, one) == Apply(cfg, s, step);
    RunExtends(cfg, Init(cfg), steps, one);
  }

  lemma ReachableRun(cfg: Config, s: State, steps: seq<Step>)
    requires Reachable(cfg, s) && Legal(cfg, s, steps)
    ensures Reachable(cfg, After(cfg, s, steps))
  {
    var before :| Legal(cfg, Init(cfg), before) && After(cfg, Init(cfg), before) == s;
    RunExtends(cfg, Init(cfg), before, steps);
  }
}
