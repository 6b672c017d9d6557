/** What every step of the pipeline keeps, before and after cancellation. */
module PipelineLaws {
  import opened Errors
  import opened Bags
  import opened Pipeline

  // ---- Shape of the state

  ghost predicate Sized(cfg: Config, s: State) {
    && |s.repoWorkers| == |s.ingestWorkers| == cfg.workers
    && |s.jobs| <= Capacity(cfg) && |s.items| <= Capacity(cfg) && |s.results| <= Capacity(cfg)
  }

  predicate SubmitterFor(t: Submitter, page: nat, repos: seq<Option<Listing>>) {
    t.page == page && t.repos == repos && t.next <= |t.repos|
  }

  ghost predicate Paged(s: State) {
    && |s.submitters| == |s.log.listed|
    && (s.lister.AtPage? ==> s.lister.page == |s.log.listed| + 1)
    && forall i :: 0 <= i < |s.submitters| ==> SubmitterFor(s.submitters[i], i + 1, s.log.listed[i])
  }

  predicate WalkInBounds(w: RepoWorker) {
    match w
    case Walking(job, next) => next <= |JobPlan(job).items|
    case AtSend(job, next) => next < |JobPlan(job).items|
    case _ => true
  }

  ghost predicate WalksInBounds(s: State) {
    forall w <- s.repoWorkers :: WalkInBounds(w)
  }

  /** Nobody leaves and nothing is given up before the context is cancelled. */
  ghost predicate Steady(s: State) {
    && (s.done ==> s.cancelled)
    && (!s.cancelled ==>
          && (forall w <- s.repoWorkers :: !w.RepoGone?)
          && (forall w <- s.ingestWorkers :: !w.IngestGone?)
          && (forall t <- s.submitters :: !t.held.Undoing?)
          && !s.collector.CollectorGone?
          && s.log.refused == multiset{} && s.log.dropped == multiset{})
  }

  /** Every value sent on results is nil. */
  ghost predicate NilLaw(s: State) {
    && (forall w <- s.ingestWorkers :: w.Reporting? ==> w.report.err.None?)
    && (forall r <- s.results :: r.err.None?)
  }

  ghost predicate Shape(cfg: Config, s: State) {
    Sized(cfg, s) && Paged(s) && WalksInBounds(s) && Steady(s) && NilLaw(s)
  }

  // ---- Books

  /** Channels are first in, first out. */
  ghost predicate QueueLaw(s: State) {
    && s.log.accepted == s.log.taken + s.jobs
    && s.log.emitted == s.log.received + s.items
    && s.log.reported == s.log.collected + s.results
  }

  function HeldJob(t: Submitter): multiset<Job> {
    if t.held.Nothing? then multiset{} else multiset{t.held.job}
  }

  function SubmitterJobs(t: Submitter): multiset<Job> {
    HeldJob(t) + multiset(PageJobs(t.page, t.repos, t.next))
  }

  /** Jobs whose Submit is over. */
  function Settled(log: Log): multiset<Job> {
    multiset(log.accepted) + log.refused
  }

  /** Listed jobs: still with a submitter, accepted, or refused. */
  ghost predicate JobLaw(s: State) {
    multiset(NestedJobs(s.log.listed)) == Bag(SubmitterJobs, s.submitters) + Settled(s.log)
  }

  /** Items that have left the repo workers. */
  function HandedOn(log: Log): multiset<Item> {
    multiset(log.emitted) + log.dropped
  }

  /** Items of taken jobs: still owed by a repo worker, emitted, or dropped. */
  ghost predicate ItemLaw(s: State) {
    multiset(ItemsOfJobs(s.log.taken)) == Bag(Owed, s.repoWorkers) + HandedOn(s.log)
  }

  function IngestItem(w: IngestWorker): multiset<Item> {
    match w
    case Holding(item) => multiset{item}
    case Reporting(report) => multiset{report.item}
    case _ => multiset{}
  }

  /** Items whose ingest has been called but not yet reported. */
  function CalledItem(w: IngestWorker): multiset<Item> {
    if w.Reporting? then multiset{w.report.item} else multiset{}
  }

  function ReportItem(r: Report): multiset<Item> { multiset{r.item} }

  function CollectorItem(c: Collector): multiset<Item> {
    if c.Received? then multiset{c.item} else multiset{}
  }

  /** Items whose result has been sent. */
  ghost function Resulted(s: State): multiset<Item> {
    Bag(ReportItem, s.results) + CollectorItem(s.collector) + s.log.consumed
  }

  /** Received items: with an ingest worker, in results, with the collector, or consumed. */
  ghost predicate FlowLaw(s: State) {
    && multiset(s.log.received) == Bag(IngestItem, s.ingestWorkers) + Resulted(s)
    && multiset(s.log.ingested) == Bag(CalledItem, s.ingestWorkers) + Resulted(s)
  }

  /** jobsInflight: accepted jobs, plus submissions counted but not resolved, minus results subtracted. */
  ghost predicate CountLaw(s: State) {
    s.jobsInflight == |s.log.accepted| + |Bag(HeldJob, s.submitters)| - |s.log.consumed|
  }

  ghost predicate Inv(cfg: Config, s: State) {
    Shape(cfg, s) && QueueLaw(s) && JobLaw(s) && ItemLaw(s) && FlowLaw(s) && CountLaw(s)
  }

  // ---- The lister

  lemma ShapeLister(cfg: Config, s: State, m: ListerMove)
    requires Shape(cfg, s) && ListerCan(cfg, s, m)
    ensures Shape(cfg, ListerDo(cfg, s, m))
  {
    var s' := ListerDo(cfg, s, m);
    forall i | 0 <= i < |s'.submitters| ensures SubmitterFor(s'.submitters[i], i + 1, s'.log.listed[i]) {
      if i < |s.submitters| { assert SubmitterFor(s.submitters[i], i + 1, s.log.listed[i]); }
    }
  }

  lemma JobLawLister(cfg: Config, s: State, m: ListerMove)
    requires Paged(s) && JobLaw(s) && ListerCan(cfg, s, m)
    ensures JobLaw(ListerDo(cfg, s, m))
  {
    if m.ListPage? {
      var page := cfg.server[s.lister.cursor];
      var listed := s.log.listed + [page.repos];
      assert listed[..|listed| - 1] == s.log.listed;
      BagAppend(SubmitterJobs, s.submitters, Submitter(s.lister.page, page.repos, 0, Nothing));
    }
  }

  lemma QueueLawLister(cfg: Config, s: State, m: ListerMove)
    requires QueueLaw(s) && ListerCan(cfg, s, m)
    ensures QueueLaw(ListerDo(cfg, s, m))
  {
  }

  lemma ItemLawLister(cfg: Config, s: State, m: ListerMove)
    requires ItemLaw(s) && ListerCan(cfg, s, m)
    ensures ItemLaw(ListerDo(cfg, s, m))
  {
  }

  lemma FlowLawLister(cfg: Config, s: State, m: ListerMove)
    requires FlowLaw(s) && ListerCan(cfg, s, m)
    ensures FlowLaw(ListerDo(cfg, s, m))
  {
  }

  lemma CountLawLister(cfg: Config, s: State, m: ListerMove)
    requires CountLaw(s) && ListerCan(cfg, s, m)
    ensures CountLaw(ListerDo(cfg, s, m))
  {
    if m.ListPage? { BagAppend(HeldJob, s.submitters, ListerDo(cfg, s, m).submitters[|s.submitters|]); }
  }

  lemma InvLister(cfg: Config, s: State, m: ListerMove)
    requires Inv(cfg, s) && ListerCan(cfg, s, m)
    ensures Inv(cfg, ListerDo(cfg, s, m))
  {
    ShapeLister(cfg, s, m);
    QueueLawLister(cfg, s, m);
    JobLawLister(cfg, s, m);
    ItemLawLister(cfg, s, m);
    FlowLawLister(cfg, s, m);
    CountLawLister(cfg, s, m);
  }

  // ---- A submitter

  lemma ShapeSubmitter(cfg: Config, s: State, i: nat, m: SubmitterMove)
    requires Shape(cfg, s) && SubmitterCan(cfg, s, i, m)
    ensures Shape(cfg, SubmitterDo(cfg, s, i, m))
  {
    var s' := SubmitterDo(cfg, s, i, m);
    assert SubmitterFor(s.submitters[i], i + 1, s.log.listed[i]);
  }

  lemma SettledGrows(cfg: Config, s: State, i: nat, m: SubmitterMove, out: multiset<Job>)
    requires SubmitterCan(cfg, s, i, m)
    requires out == if m.Accept? || m.Undo? then multiset{s.submitters[i].held.job} else multiset{}
    ensures Settled(SubmitterDo(cfg, s, i, m).log) == Settled(s.log) + out
  {
  }

  lemma OfferedJob(t: Submitter)
    requires SubmitterReady(t, Offer)
    ensures SubmitterJobs(SubmitterNext(t, Offer)) == SubmitterJobs(t)
  {
    var job := Job(t.page, t.next, t.repos[t.next].value);
    assert PageJobs(t.page, t.repos, t.next) == [job] + PageJobs(t.page, t.repos, t.next + 1);
  }

  lemma SubmitterShare(t: Submitter, m: SubmitterMove, out: multiset<Job>)
    requires SubmitterReady(t, m)
    requires out == if m.Accept? || m.Undo? then multiset{t.held.job} else multiset{}
    ensures SubmitterJobs(SubmitterNext(t, m)) + out == SubmitterJobs(t) + multiset{}
  {
    var rest := multiset(PageJobs(t.page, t.repos, SubmitterNext(t, m).next));
    if m.SkipRepo? {
      assert rest == multiset(PageJobs(t.page, t.repos, t.next));
    } else if m.Offer? {
      OfferedJob(t);
    } else if m.Refuse? {
      assert HeldJob(SubmitterNext(t, m)) == HeldJob(t);
    } else {
      assert (multiset{} + rest) + out == (out + rest) + multiset{};
    }
  }

  /** A submitter keeps its jobs or hands the one it holds over to the accepted or the refused ones. */
  lemma JobLawSubmitter(cfg: Config, s: State, i: nat, m: SubmitterMove)
    requires JobLaw(s) && SubmitterCan(cfg, s, i, m)
    ensures JobLaw(SubmitterDo(cfg, s, i, m))
  {
    var s' := SubmitterDo(cfg, s, i, m);
    var t := s.submitters[i];
    var out := if m.Accept? || m.Undo? then multiset{t.held.job} else multiset{};
    SubmitterShare(t, m, out);
    SettledGrows(cfg, s, i, m, out);
    var all := multiset(NestedJobs(s.log.listed));
    Books(SubmitterJobs, s.submitters, i, SubmitterNext(t, m), all, all, Settled(s.log), Settled(s'.log),
          multiset{}, out);
  }

  lemma CountUpdate(ts: seq<Submitter>, i: nat, t: Submitter)
    requires i < |ts|
    ensures |Bag(HeldJob, ts[i := t])|
         == |Bag(HeldJob, ts)| + (if t.held.Nothing? then 0 else 1) - (if ts[i].held.Nothing? then 0 else 1)
  {
    BagUpdate(HeldJob, ts, i, t);
    assert |Bag(HeldJob, ts[i := t]) + HeldJob(ts[i])| == |Bag(HeldJob, ts) + HeldJob(t)|;
  }

  lemma CountLawSubmitter(cfg: Config, s: State, i: nat, m: SubmitterMove)
    requires CountLaw(s) && SubmitterCan(cfg, s, i, m)
    ensures CountLaw(SubmitterDo(cfg, s, i, m))
  {
    CountUpdate(s.submitters, i, SubmitterNext(s.submitters[i], m));
  }

  lemma QueueLawSubmitter(cfg: Config, s: State, i: nat, m: SubmitterMove)
    requires QueueLaw(s) && SubmitterCan(cfg, s, i, m)
    ensures QueueLaw(SubmitterDo(cfg, s, i, m))
  {
  }

  lemma ItemLawSubmitter(cfg: Config, s: State, i: nat, m: SubmitterMove)
    requires ItemLaw(s) && SubmitterCan(cfg, s, i, m)
    ensures ItemLaw(SubmitterDo(cfg, s, i, m))
  {
  }

  lemma FlowLawSubmitter(cfg: Config, s: State, i: nat, m: SubmitterMove)
    requires FlowLaw(s) && SubmitterCan(cfg, s, i, m)
    ensures FlowLaw(SubmitterDo(cfg, s, i, m))
  {
  }

  lemma InvSubmitter(cfg: Config, s: State, i: nat, m: SubmitterMove)
    requires Inv(cfg, s) && SubmitterCan(cfg, s, i, m)
    ensures Inv(cfg, SubmitterDo(cfg, s, i, m))
  {
    ShapeSubmitter(cfg, s, i, m);
    QueueLawSubmitter(cfg, s, i, m);
    JobLawSubmitter(cfg, s, i, m);
    ItemLawSubmitter(cfg, s, i, m);
    FlowLawSubmitter(cfg, s, i, m);
    CountLawSubmitter(cfg, s, i, m);
  }

  // ---- A repo worker

  lemma ShapeRepo(cfg: Config, s: State, r: nat, m: RepoMove)
    requires Shape(cfg, s) && RepoCan(cfg, s, r, m)
    ensures Shape(cfg, RepoDo(cfg, s, r, m))
  {
    assert WalkInBounds(s.repoWorkers[r]);
  }

  lemma OwedKept(w: RepoWorker, m: RepoMove, job: Job)
    requires RepoReady(w, m) && m in {Fetch, StartWalk, ReadRecord, FinishJob, LeaveRepo}
    ensures Owed(RepoNext(w, m, job)) == Owed(w)
  {
  }

  lemma Commute<U>(m: multiset<U>)
    ensures m + multiset{} == multiset{} + m
  {
  }

  lemma OwedNext(job: Job, k: nat)
    requires k < |JobPlan(job).items|
    ensures multiset(ItemsFrom(job, k + 1)) + multiset{Item(job, k)} == multiset(ItemsFrom(job, k)) + multiset{}
  {
    assert ItemsFrom(job, k) == [Item(job, k)] + ItemsFrom(job, k + 1);
  }

  lemma RepoShare(w: RepoWorker, m: RepoMove, job: Job, gain: multiset<Item>, out: multiset<Item>)
    requires RepoReady(w, m) && WalkInBounds(w)
    requires gain == if m.TakeJob? then multiset(ItemsFrom(job, 0)) else multiset{}
    requires out == if m.SendItem? then multiset{Item(w.job, w.next)} else if m.AbandonJob? then Owed(w) else multiset{}
    ensures Owed(RepoNext(w, m, job)) + out == Owed(w) + gain
  {
    if m.TakeJob? {
      Commute(gain);
    } else if m.SendItem? {
      OwedNext(w.job, w.next);
    } else if m.AbandonJob? {
      Commute(out);
    } else {
      OwedKept(w, m, job);
    }
  }

  lemma TakenGrows(cfg: Config, s: State, r: nat, m: RepoMove, gain: multiset<Item>)
    requires RepoCan(cfg, s, r, m)
    requires gain == if m.TakeJob? then multiset(ItemsFrom(s.jobs[0], 0)) else multiset{}
    ensures multiset(ItemsOfJobs(RepoDo(cfg, s, r, m).log.taken)) == multiset(ItemsOfJobs(s.log.taken)) + gain
  {
    var taken' := RepoDo(cfg, s, r, m).log.taken;
    if m.TakeJob? {
      assert taken'[..|taken'| - 1] == s.log.taken;
    } else {
      assert taken' == s.log.taken;
    }
  }

  lemma HandedOnGrows(cfg: Config, s: State, r: nat, m: RepoMove, out: multiset<Item>)
    requires RepoCan(cfg, s, r, m)
    requires out == if m.SendItem? then multiset{Item(s.repoWorkers[r].job, s.repoWorkers[r].next)}
                    else if m.AbandonJob? then Owed(s.repoWorkers[r]) else multiset{}
    ensures HandedOn(RepoDo(cfg, s, r, m).log) == HandedOn(s.log) + out
  {
    var e, d := multiset(s.log.emitted), s.log.dropped;
    if m.SendItem? {
      assert multiset(RepoDo(cfg, s, r, m).log.emitted) == e + out;
      assert (e + out) + d == (e + d) + out;
    } else if m.AbandonJob? {
      assert e + (d + out) == (e + d) + out;
    } else {
      assert RepoDo(cfg, s, r, m).log.(taken := s.log.taken) == s.log;
    }
  }

  /** A repo worker takes a job's items on, keeps what it owes, or hands some of it on. */
  lemma ItemLawRepo(cfg: Config, s: State, r: nat, m: RepoMove)
    requires WalksInBounds(s) && ItemLaw(s) && RepoCan(cfg, s, r, m)
    ensures ItemLaw(RepoDo(cfg, s, r, m))
  {
    var w := s.repoWorkers[r];
    var s' := RepoDo(cfg, s, r, m);
    assert WalkInBounds(w);
    var job := if m.TakeJob? then s.jobs[0]
               else if m.LeaveRepo? then Job(0, 0, Listing("", false, Plan(0, false, [])))
               else w.job;
    var gain := if m.TakeJob? then multiset(ItemsFrom(job, 0)) else multiset{};
    var out := if m.SendItem? then multiset{Item(w.job, w.next)} else if m.AbandonJob? then Owed(w) else multiset{};
    RepoShare(w, m, job, gain, out);
    TakenGrows(cfg, s, r, m, gain);
    HandedOnGrows(cfg, s, r, m, out);
    Books(Owed, s.repoWorkers, r, RepoNext(w, m, job),
          multiset(ItemsOfJobs(s.log.taken)), multiset(ItemsOfJobs(s'.log.taken)),
          HandedOn(s.log), HandedOn(s'.log), gain, out);
  }

  lemma QueueLawRepo(cfg: Config, s: State, r: nat, m: RepoMove)
    requires QueueLaw(s) && RepoCan(cfg, s, r, m)
    ensures QueueLaw(RepoDo(cfg, s, r, m))
  {
    if m.TakeJob? { assert s.jobs == [s.jobs[0]] + s.jobs[1..]; }
  }

  lemma JobLawRepo(cfg: Config, s: State, r: nat, m: RepoMove)
    requires JobLaw(s) && RepoCan(cfg, s, r, m)
    ensures JobLaw(RepoDo(cfg, s, r, m))
  {
  }

  lemma FlowLawRepo(cfg: Config, s: State, r: nat, m: RepoMove)
    requires FlowLaw(s) && RepoCan(cfg, s, r, m)
    ensures FlowLaw(RepoDo(cfg, s, r, m))
  {
  }

  lemma CountLawRepo(cfg: Config, s: State, r: nat, m: RepoMove)
    requires CountLaw(s) && RepoCan(cfg, s, r, m)
    ensures CountLaw(RepoDo(cfg, s, r, m))
  {
  }

  lemma InvRepo(cfg: Config, s: State, r: nat, m: RepoMove)
    requires Inv(cfg, s) && RepoCan(cfg, s, r, m)
    ensures Inv(cfg, RepoDo(cfg, s, r, m))
  {
    ShapeRepo(cfg, s, r, m);
    QueueLawRepo(cfg, s, r, m);
    JobLawRepo(cfg, s, r, m);
    ItemLawRepo(cfg, s, r, m);
    FlowLawRepo(cfg, s, r, m);
    CountLawRepo(cfg, s, r, m);
  }

  // ---- An ingest worker

  lemma ShapeIngest(cfg: Config, s: State, g: nat, m: IngestMove)
    requires Shape(cfg, s) && IngestCan(cfg, s, g, m)
    ensures Shape(cfg, IngestDo(cfg, s, g, m))
  {
  }

  /** What an ingest worker holds before and after its move. */
  lemma IngestHolding(cfg: Config, s: State, g: nat, m: IngestMove)
    requires IngestCan(cfg, s, g, m)
    ensures
      var w, w' := s.ingestWorkers[g], IngestDo(cfg, s, g, m).ingestWorkers[g];
      match m
      case TakeItem =>
        IngestItem(w) == CalledItem(w) == CalledItem(w') == multiset{} && IngestItem(w') == multiset{s.items[0]}
      case RunIngest(_) =>
        CalledItem(w) == multiset{} && IngestItem(w) == IngestItem(w') == CalledItem(w') == multiset{w.item}
      case SendResult =>
        IngestItem(w') == CalledItem(w') == multiset{} && IngestItem(w) == CalledItem(w) == multiset{w.report.item}
      case LeaveIngest =>
        IngestItem(w) == CalledItem(w) == IngestItem(w') == CalledItem(w') == multiset{}
  {
  }

  lemma IngestShare(cfg: Config, s: State, g: nat, m: IngestMove,
                    gain: multiset<Item>, called: multiset<Item>, out: multiset<Item>)
    requires IngestCan(cfg, s, g, m)
    requires gain == if m.TakeItem? then multiset{s.items[0]} else multiset{}
    requires called == if m.RunIngest? then multiset{s.ingestWorkers[g].item} else multiset{}
    requires out == if m.SendResult? then multiset{s.ingestWorkers[g].report.item} else multiset{}
    ensures
      var w, w' := s.ingestWorkers[g], IngestDo(cfg, s, g, m).ingestWorkers[g];
      IngestItem(w') + out == IngestItem(w) + gain && CalledItem(w') + out == CalledItem(w) + called
  {
    IngestHolding(cfg, s, g, m);
    if m.TakeItem? {
      Commute(gain);
    } else if m.RunIngest? {
      Commute(called);
    } else if m.SendResult? {
      Commute(out);
    }
  }

  lemma IngestTotals(cfg: Config, s: State, g: nat, m: IngestMove,
                     gain: multiset<Item>, called: multiset<Item>)
    requires IngestCan(cfg, s, g, m)
    requires gain == if m.TakeItem? then multiset{s.items[0]} else multiset{}
    requires called == if m.RunIngest? then multiset{s.ingestWorkers[g].item} else multiset{}
    ensures
      var s' := IngestDo(cfg, s, g, m);
      && multiset(s'.log.received) == multiset(s.log.received) + gain
      && multiset(s'.log.ingested) == multiset(s.log.ingested) + called
  {
  }

  lemma ResultedGrows(cfg: Config, s: State, g: nat, m: IngestMove, out: multiset<Item>)
    requires IngestCan(cfg, s, g, m)
    requires out == if m.SendResult? then multiset{s.ingestWorkers[g].report.item} else multiset{}
    ensures Resulted(IngestDo(cfg, s, g, m)) == Resulted(s) + out
  {
    if m.SendResult? {
      BagAppend(ReportItem, s.results, s.ingestWorkers[g].report);
    }
  }

  /** An ingest worker receives an item, calls ingest on it, or sends its result. */
  lemma FlowLawIngest(cfg: Config, s: State, g: nat, m: IngestMove)
    requires FlowLaw(s) && IngestCan(cfg, s, g, m)
    ensures FlowLaw(IngestDo(cfg, s, g, m))
  {
    var w := s.ingestWorkers[g];
    var s' := IngestDo(cfg, s, g, m);
    var gain := if m.TakeItem? then multiset{s.items[0]} else multiset{};
    var called := if m.RunIngest? then multiset{w.item} else multiset{};
    var out := if m.SendResult? then multiset{w.report.item} else multiset{};
    IngestShare(cfg, s, g, m, gain, called, out);
    IngestTotals(cfg, s, g, m, gain, called);
    ResultedGrows(cfg, s, g, m, out);
    Books(IngestItem, s.ingestWorkers, g, s'.ingestWorkers[g], multiset(s.log.received), multiset(s'.log.received),
          Resulted(s), Resulted(s'), gain, out);
    Books(CalledItem, s.ingestWorkers, g, s'.ingestWorkers[g], multiset(s.log.ingested), multiset(s'.log.ingested),
          Resulted(s), Resulted(s'), called, out);
  }

  lemma QueueLawIngest(cfg: Config, s: State, g: nat, m: IngestMove)
    requires QueueLaw(s) && IngestCan(cfg, s, g, m)
    ensures QueueLaw(IngestDo(cfg, s, g, m))
  {
    if m.TakeItem? { assert s.items == [s.items[0]] + s.items[1..]; }
  }

  lemma JobLawIngest(cfg: Config, s: State, g: nat, m: IngestMove)
    requires JobLaw(s) && IngestCan(cfg, s, g, m)
    ensures JobLaw(IngestDo(cfg, s, g, m))
  {
  }

  lemma ItemLawIngest(cfg: Config, s: State, g: nat, m: IngestMove)
    requires ItemLaw(s) && IngestCan(cfg, s, g, m)
    ensures ItemLaw(IngestDo(cfg, s, g, m))
  {
  }

  lemma CountLawIngest(cfg: Config, s: State, g: nat, m: IngestMove)
    requires CountLaw(s) && IngestCan(cfg, s, g, m)
    ensures CountLaw(IngestDo(cfg, s, g, m))
  {
  }

  lemma InvIngest(cfg: Config, s: State, g: nat, m: IngestMove)
    requires Inv(cfg, s) && IngestCan(cfg, s, g, m)
    ensures Inv(cfg, IngestDo(cfg, s, g, m))
  {
    ShapeIngest(cfg, s, g, m);
    QueueLawIngest(cfg, s, g, m);
    JobLawIngest(cfg, s, g, m);
    ItemLawIngest(cfg, s, g, m);
    FlowLawIngest(cfg, s, g, m);
    CountLawIngest(cfg, s, g, m);
  }

  // ---- The collector and the context

  lemma QueueLawCollector(s: State, m: CollectorMove)
    requires QueueLaw(s) && CollectorCan(s, m)
    ensures QueueLaw(CollectorDo(s, m))
  {
    if m.Collect? { assert s.results == [s.results[0]] + s.results[1..]; }
  }

  lemma ShapeCollector(cfg: Config, s: State, m: CollectorMove)
    requires Shape(cfg, s) && CollectorCan(s, m)
    ensures Shape(cfg, CollectorDo(s, m))
  {
  }

  lemma JobLawCollector(s: State, m: CollectorMove)
    requires JobLaw(s) && CollectorCan(s, m)
    ensures JobLaw(CollectorDo(s, m))
  {
  }

  lemma ItemLawCollector(s: State, m: CollectorMove)
    requires ItemLaw(s) && CollectorCan(s, m)
    ensures ItemLaw(CollectorDo(s, m))
  {
  }

  lemma ResultedKept(s: State, m: CollectorMove)
    requires CollectorCan(s, m)
    ensures Resulted(CollectorDo(s, m)) == Resulted(s)
  {
    if m.Collect? {
      BagFirst(ReportItem, s.results);
    }
  }

  lemma FlowLawCollector(s: State, m: CollectorMove)
    requires FlowLaw(s) && CollectorCan(s, m)
    ensures FlowLaw(CollectorDo(s, m))
  {
    ResultedKept(s, m);
  }

  lemma CountLawCollector(s: State, m: CollectorMove)
    requires CountLaw(s) && CollectorCan(s, m)
    ensures CountLaw(CollectorDo(s, m))
  {
  }

  lemma InvCollector(cfg: Config, s: State, m: CollectorMove)
    requires Inv(cfg, s) && CollectorCan(s, m)
    ensures Inv(cfg, CollectorDo(s, m))
  {
    ShapeCollector(cfg, s, m);
    QueueLawCollector(s, m);
    JobLawCollector(s, m);
    ItemLawCollector(s, m);
    FlowLawCollector(s, m);
    CountLawCollector(s, m);
  }

  lemma InvContext(cfg: Config, s: State, m: ContextMove)
    requires Inv(cfg, s) && ContextCan(s, m)
    ensures Inv(cfg, ContextDo(s, m))
  {
    assert Resulted(ContextDo(s, m)) == Resulted(s);
  }

  // ---- All reachable states

  lemma InvInit(cfg: Config)
    ensures Inv(cfg, Init(cfg))
  {
    BagEmpty(Owed, Init(cfg).repoWorkers);
    BagEmpty(IngestItem, Init(cfg).ingestWorkers);
    BagEmpty(CalledItem, Init(cfg).ingestWorkers);
  }

  lemma InvStep(cfg: Config, s: State, step: Step)
    requires Inv(cfg, s) && Enabled(cfg, s, step)
    ensures Inv(cfg, Apply(cfg, s, step))
  {
    match step
    case ListerStep(m) => InvLister(cfg, s, m);
    case SubmitterStep(i, m) => InvSubmitter(cfg, s, i, m);
    case RepoStep(r, m) => InvRepo(cfg, s, r, m);
    case IngestStep(g, m) => InvIngest(cfg, s, g, m);
    case CollectorStep(m) => InvCollector(cfg, s, m);
    case ContextStep(m) => InvContext(cfg, s, m);
  }

  lemma {:induction false} InvRun(cfg: Config, s: State, steps: seq<Step>)
    requires Inv(cfg, s) && Legal(cfg, s, steps)
    ensures Inv(cfg, After(cfg, s, steps))
    decreases |steps|
  {
    if steps == [] {
    } else {
      InvStep(cfg, s, steps[0]);
      InvRun(cfg, Apply(cfg, s, steps[0]), steps[1..]);
    }
  }

  lemma ReachableInv(cfg: Config, s: State)
    requires Reachable(cfg, s)
    ensures Inv(cfg, s)
  {
    var steps :| Legal(cfg, Init(cfg), steps) && After(cfg, Init(cfg), steps) == s;
    InvInit(cfg);
    InvRun(cfg, Init(cfg), steps);
  }
}
