/** The worker pool and the backfill around it as one mutable object. Each method is one turn of one goroutine,
    up to its next channel operation or counter update; `move` is what the scheduler lets it do. */
module WorkerPools {
  import opened Errors
  import opened Engines
  import opened Pipeline
  import opened PipelineLaws
  import opened PipelineResults

  datatype SubmitReply = Accepted | Refused | NotReady | MissingRepo

  class WorkerPool {
    const cfg: Config
    // channels and shared counters
    var jobs: seq<Job>
    var items: seq<Item>
    var results: seq<Report>
    var jobsInflight: int
    var cancelled: bool
    var done: bool
    // goroutines
    var lister: Lister
    var submitters: seq<Submitter>
    var repoWorkers: seq<RepoWorker>
    var ingestWorkers: seq<IngestWorker>
    var collector: Collector
    ghost var log: Log

    ghost function Contents(): State
      reads this
    {
      State(lister, submitters, jobs, repoWorkers, items, ingestWorkers, results, collector,
            jobsInflight, cancelled, done, log)
    }

    /** NewWorkerPool, Start and the opening of BackfillRepos. */
    constructor (cfg: Config)
      ensures this.cfg == cfg && Contents() == Init(cfg)
    {
      this.cfg := cfg;
      jobs, items, results := [], [], [];
      jobsInflight, cancelled, done := 0, false, false;
      lister, submitters, collector := AtPage("", 1), [], Waiting;
      repoWorkers := seq(cfg.workers, _ => RepoIdle);
      ingestWorkers := seq(cfg.workers, _ => IngestIdle);
      log := Log([], [], multiset{}, [], [], [], multiset{}, [], [], [], multiset{});
    }

    /** listRepos: a page of repositories and a goroutine to submit them, or an error. */
    method ListRepos(move: ListerMove) returns (moved: bool)
      modifies this
      ensures moved == ListerCan(cfg, old(Contents()), move)
      ensures Contents() == if moved then ListerDo(cfg, old(Contents()), move) else old(Contents())
    {
      if !lister.AtPage? { return false; }
      if move.ListFail? {
        if lister.cursor in cfg.server && !cancelled { return false; }
        lister := ListFailed;
        return true;
      }
      if lister.cursor !in cfg.server { return false; }
      var page := cfg.server[lister.cursor];
      submitters := submitters + [Submitter(lister.page, page.repos, 0, Nothing)];
      log := log.(listed := log.listed + [page.repos]);
      if page.cursor.None? || page.cursor.value == "" {
        lister := ListDone;
      } else {
        lister := AtPage(page.cursor.value, lister.page + 1);
      }
      return true;
    }

    /** A job without a repository is an error. Then Submit's select: the context or the done channel refuse the job,
        a free place in the jobs channel accepts it, else it waits. */
    method Submit(i: nat, job: Option<Job>, refuse: bool) returns (reply: SubmitReply)
      requires i < |submitters| && (job.Some? ==> submitters[i].held == Submitting(job.value))
      modifies this
      ensures
        var move := if refuse then Refuse else Accept;
        && reply == (if job.None? then MissingRepo
                     else if !SubmitterCan(cfg, old(Contents()), i, move) then NotReady
                     else if refuse then Refused else Accepted)
        && Contents() == (if reply.Refused? || reply.Accepted? then SubmitterDo(cfg, old(Contents()), i, move)
                          else old(Contents()))
    {
      if job.None? { return MissingRepo; }
      if refuse {
        if !cancelled && !done { return NotReady; }
        submitters := submitters[i := submitters[i].(held := Undoing(job.value))];
        return Refused;
      }
      if |jobs| >= 2 * cfg.workers { return NotReady; }
      submitters := submitters[i := submitters[i].(held := Nothing)];
      jobs := jobs + [job.value];
      log := log.(accepted := log.accepted + [job.value]);
      return Accepted;
    }

    /** The submitting goroutine of one page. */
    method SubmitPage(i: nat, move: SubmitterMove) returns (moved: bool)
      modifies this
      ensures moved == SubmitterCan(cfg, old(Contents()), i, move)
      ensures Contents() == if moved then SubmitterDo(cfg, old(Contents()), i, move) else old(Contents())
    {
      if i >= |submitters| || !SubmitterReady(submitters[i], move) { return false; }
      var t := submitters[i];
      match move {
        case SkipRepo =>
          submitters := submitters[i := t.(next := t.next + 1)];
        case Offer =>
          jobsInflight := jobsInflight + 1;
          var job := Job(t.page, t.next, t.repos[t.next].value);
          submitters := submitters[i := t.(next := t.next + 1, held := Submitting(job))];
        case Accept =>
          var reply := Submit(i, Some(t.held.job), false);
          return reply.Accepted?;
        case Refuse =>
          var reply := Submit(i, Some(t.held.job), true);
          return reply.Refused?;
        case Undo =>
          jobsInflight := jobsInflight - 1;
          log := log.(refused := log.refused + multiset{t.held.job});
          submitters := submitters[i := t.(held := Nothing)];
      }
      return true;
    }

    /** repoWorker and the walk it runs. */
    method RepoTurn(r: nat, move: RepoMove) returns (moved: bool)
      modifies this
      ensures moved == RepoCan(cfg, old(Contents()), r, move)
      ensures Contents() == if moved then RepoDo(cfg, old(Contents()), r, move) else old(Contents())
    {
      if r >= |repoWorkers| || !RepoReady(repoWorkers[r], move) { return false; }
      var w := repoWorkers[r];
      match move {
        case TakeJob =>
          if jobs == [] { return false; }
          var job := jobs[0];
          jobs := jobs[1..];
          log := log.(taken := log.taken + [job]);
          repoWorkers := repoWorkers[r := Fetching(job, JobPlan(job).calls)];
        case Fetch =>
          if cancelled { return false; }
          repoWorkers := repoWorkers[r := Fetching(w.job, w.left - 1)];
        case StartWalk =>
          if cancelled { return false; }
          repoWorkers := repoWorkers[r := Walking(w.job, 0)];
        case ReadRecord =>
          repoWorkers := repoWorkers[r := AtSend(w.job, w.next)];
        case SendItem =>
          if |items| >= 2 * cfg.workers { return false; }
          items := items + [Item(w.job, w.next)];
          log := log.(emitted := log.emitted + [Item(w.job, w.next)]);
          repoWorkers := repoWorkers[r := Walking(w.job, w.next + 1)];
        case FinishJob =>
          repoWorkers := repoWorkers[r := RepoIdle];
        case AbandonJob =>
          if !cancelled { return false; }
          log := log.(dropped := log.dropped + Owed(w));
          repoWorkers := repoWorkers[r := RepoIdle];
        case LeaveRepo =>
          if !cancelled && !done { return false; }
          repoWorkers := repoWorkers[r := RepoGone];
      }
      return true;
    }

    /** ingestWorker. */
    method IngestTurn(g: nat, move: IngestMove) returns (moved: bool)
      modifies this
      ensures moved == IngestCan(cfg, old(Contents()), g, move)
      ensures Contents() == if moved then IngestDo(cfg, old(Contents()), g, move) else old(Contents())
    {
      if g >= |ingestWorkers| || !IngestReady(ingestWorkers[g], move) { return false; }
      var w := ingestWorkers[g];
      match move {
        case TakeItem =>
          if items == [] { return false; }
          var item := items[0];
          items := items[1..];
          log := log.(received := log.received + [item]);
          ingestWorkers := ingestWorkers[g := Holding(item)];
        case RunIngest(outcome) =>
          var err := IngestReport(cfg.limits, outcome);
          log := log.(ingested := log.ingested + [w.item]);
          ingestWorkers := ingestWorkers[g := Reporting(Report(w.item, err))];
        case SendResult =>
          if |results| >= 2 * cfg.workers { return false; }
          results := results + [w.report];
          log := log.(reported := log.reported + [w.report]);
          ingestWorkers := ingestWorkers[g := IngestIdle];
        case LeaveIngest =>
          if !cancelled && !done { return false; }
          ingestWorkers := ingestWorkers[g := IngestGone];
      }
      return true;
    }

    /** The result loop of BackfillRepos. */
    method CollectorTurn(move: CollectorMove) returns (moved: bool)
      modifies this
      ensures moved == CollectorCan(old(Contents()), move)
      ensures Contents() == if moved then CollectorDo(old(Contents()), move) else old(Contents())
    {
      match move {
        case Collect =>
          if !collector.Waiting? || results == [] { return false; }
          collector := Received(results[0].item);
          log := log.(collected := log.collected + [results[0]]);
          results := results[1..];
        case Subtract =>
          if !collector.Received? { return false; }
          jobsInflight := jobsInflight - 1;
          log := log.(consumed := log.consumed + multiset{collector.item});
          collector := Waiting;
        case LeaveCollector =>
          if !collector.Waiting? || !cancelled { return false; }
          collector := CollectorGone;
      }
      return true;
    }

    /** Cancellation, and the watcher that closes the done channel after it. */
    method ContextTurn(move: ContextMove) returns (moved: bool)
      modifies this
      ensures moved == ContextCan(old(Contents()), move)
      ensures Contents() == if moved then ContextDo(old(Contents()), move) else old(Contents())
    {
      if move.Cancel? {
        if cancelled { return false; }
        cancelled := true;
      } else {
        if !cancelled || done { return false; }
        done := true;
      }
      return true;
    }

    /** One turn of whichever goroutine the scheduler picks. A turn that cannot be taken leaves everything as it is. */
    method Turn(step: Step) returns (moved: bool)
      modifies this
      ensures moved == Enabled(cfg, old(Contents()), step)
      ensures Contents() == if moved then Apply(cfg, old(Contents()), step) else old(Contents())
    {
      match step
      case ListerStep(m) => moved := ListRepos(m);
      case SubmitterStep(i, m) => moved := SubmitPage(i, m);
      case RepoStep(r, m) => moved := RepoTurn(r, m);
      case IngestStep(g, m) => moved := IngestTurn(g, m);
      case CollectorStep(m) => moved := CollectorTurn(m);
      case ContextStep(m) => moved := ContextTurn(m);
    }

    /** Every turn keeps the pool among the reachable states, and with it all their laws. */
    method SafeTurn(step: Step) returns (moved: bool)
      requires Reachable(cfg, Contents())
      modifies this
      ensures Reachable(cfg, Contents()) && Inv(cfg, Contents())
      ensures multiset(log.emitted) == Places(Contents()) && forall x :: Places(Contents())[x] <= 1
      ensures moved == Enabled(cfg, old(Contents()), step)
      ensures Contents() == if moved then Apply(cfg, old(Contents()), step) else old(Contents())
    {
      ghost var before := Contents();
      moved := Turn(step);
      if moved {
        ReachableStep(cfg, before, step);
      }
      ReachableInv(cfg, Contents());
      ExactlyOnce(cfg, Contents());
    }
  }
}
