/** The whole backfill: from what the servers answer to what the engine is handed and the graph that results. */
module Backfill {
  import opened Errors
  import opened RateLimit
  import opened RepoWalk
  import opened RepoJobs
  import opened ProfileGraph
  import opened Replay
  import opened Engines
  import opened Bags
  import opened Pipeline
  import opened PipelineResults
  import opened Pagination
  import opened PipelineProgress
  import opened PipelineCuts
  import opened PipelineShutdown

  // ---- The network, and the pipeline that runs against it

  /** A listed repository and how fetching it goes, call by call. */
  datatype Remote = Remote(did: string, active: bool, script: seq<FetchAttempt>)

  datatype RemotePage = RemotePage(repos: seq<Option<Remote>>, cursor: Option<string>)

  function PlanOf(l: Limits, script: seq<FetchAttempt>): Plan {
    Plan(JobRun(l, script).calls, !JobRun(l, script).result.Pending?, JobItems(l, script))
  }

  function ListingOf(l: Limits, r: Option<Remote>): Option<Listing> {
    if r.None? then None else Some(Listing(r.value.did, r.value.active, PlanOf(l, r.value.script)))
  }

  function ReposOf(l: Limits, repos: seq<Option<Remote>>): (r: seq<Option<Listing>>)
    ensures |r| == |repos|
    ensures forall i :: 0 <= i < |repos| ==> r[i] == ListingOf(l, repos[i])
    ensures forall i :: 0 <= i < |repos| ==>
              && (r[i].Some? <==> repos[i].Some?)
              && (r[i].Some? ==> r[i].value.did == repos[i].value.did && r[i].value.active == repos[i].value.active)
  {
    seq(|repos|, i requires 0 <= i < |repos| => ListingOf(l, repos[i]))
  }

  function Connect(workers: nat, l: Limits, remote: map<string, RemotePage>): (cfg: Config)
    ensures cfg.workers == workers && cfg.limits == l && cfg.server.Keys == remote.Keys
    ensures forall c <- remote :: cfg.server[c].cursor == remote[c].cursor
  {
    Config(workers, l, map c <- remote :: Page(ReposOf(l, remote[c].repos), remote[c].cursor))
  }

  // ---- The same backfill as a plain loop

  function SequentialPage(l: Limits, repos: seq<Option<Remote>>, k: nat): seq<RepoItem>
    decreases |repos| - k
  {
    if k >= |repos| then []
    else if repos[k].None? || !repos[k].value.active then SequentialPage(l, repos, k + 1)
    else JobItems(l, repos[k].value.script) + SequentialPage(l, repos, k + 1)
  }

  function SequentialBackfill(l: Limits, remote: map<string, RemotePage>, cursors: seq<string>): seq<RepoItem>
    requires forall c <- cursors :: c in remote
  {
    if cursors == [] then []
    else
      var n := |cursors| - 1;
      SequentialBackfill(l, remote, cursors[..n]) + SequentialPage(l, remote[cursors[n]].repos, 0)
  }

  // ---- Items and what they carry

  const NO_ITEM := RepoItem("", "", "", "", 0, "", OtherRecord)

  function Payload(x: Item): RepoItem {
    if x.index < |JobPlan(x.job).items| then JobPlan(x.job).items[x.index] else NO_ITEM
  }

  function Map<A, B>(f: A -> B, s: seq<A>): (r: seq<B>)
    ensures |r| == |s|
    ensures forall i :: 0 <= i < |s| ==> r[i] == f(s[i])
  {
    seq(|s|, i requires 0 <= i < |s| => f(s[i]))
  }

  lemma MapConcat<A, B>(f: A -> B, s: seq<A>, t: seq<A>)
    ensures Map(f, s + t) == Map(f, s) + Map(f, t)
  {
  }

  function Without<A>(s: seq<A>, i: nat): seq<A>
    requires i < |s|
  {
    s[..i] + s[i + 1..]
  }

  lemma WithoutOne<A>(s: seq<A>, i: nat)
    requires i < |s|
    ensures multiset(Without(s, i)) == multiset(s) - multiset{s[i]}
    ensures multiset(s) == multiset(Without(s, i)) + multiset{s[i]}
  {
    assert s == s[..i] + [s[i]] + s[i + 1..];
  }

  /** Where the first element of s is in t; without it the two are still permutations of each other. */
  lemma IndexIn<A>(s: seq<A>, t: seq<A>) returns (i: nat)
    requires multiset(s) == multiset(t) && s != []
    ensures i < |t| && t[i] == s[0]
    ensures multiset(Without(s, 0)) == multiset(Without(t, i))
  {
    assert s[0] in multiset(t);
    i :| 0 <= i < |t| && t[i] == s[0];
    WithoutOne(s, 0);
    WithoutOne(t, i);
  }

  lemma MapWithout<A, B>(f: A -> B, s: seq<A>, i: nat)
    requires i < |s|
    ensures multiset(Map(f, s)) == multiset(Map(f, Without(s, i))) + multiset{f(s[i])}
  {
    assert Map(f, Without(s, i)) == Without(Map(f, s), i);
    WithoutOne(Map(f, s), i);
  }

  /** Mapping keeps permutations. */
  lemma {:induction false} MapPermutation<A, B>(f: A -> B, s: seq<A>, t: seq<A>)
    requires multiset(s) == multiset(t)
    ensures multiset(Map(f, s)) == multiset(Map(f, t))
  {
    if s == [] {
      assert |multiset(t)| == 0;
    } else {
      var i := IndexIn(s, t);
      MapPermutation(f, Without(s, 0), Without(t, i));
      MapWithout(f, s, 0);
      MapWithout(f, t, i);
    }
  }

  lemma {:induction false} PayloadsOfJob(job: Job, k: nat)
    requires k <= |JobPlan(job).items|
    ensures Map(Payload, ItemsFrom(job, k)) == JobPlan(job).items[k..]
    decreases |JobPlan(job).items| - k
  {
    if k >= |JobPlan(job).items| {
    } else {
      PayloadsOfJob(job, k + 1);
      MapConcat(Payload, [Item(job, k)], ItemsFrom(job, k + 1));
    }
  }

  lemma {:induction false} PayloadsOfPage(l: Limits, page: nat, repos: seq<Option<Remote>>, k: nat)
    ensures Map(Payload, ItemsOfJobs(PageJobs(page, ReposOf(l, repos), k))) == SequentialPage(l, repos, k)
    decreases |repos| - k
  {
    if k >= |repos| {
    } else {
      PayloadsOfPage(l, page, repos, k + 1);
      var listed := ReposOf(l, repos);
      if !FilterRepo(listed[k]) {
        var job := Job(page, k, listed[k].value);
        var rest := PageJobs(page, listed, k + 1);
        PayloadsOfJob(job, 0);
        ItemsOfJobsConcat([job], rest);
        ItemsOfOne(job);
        MapConcat(Payload, ItemsFrom(job, 0), ItemsOfJobs(rest));
      }
    }
  }

  lemma PagesAlongLast(workers: nat, l: Limits, remote: map<string, RemotePage>, cursors: seq<string>)
    requires cursors != [] && forall c <- cursors :: c in remote
    ensures
      var cfg := Connect(workers, l, remote);
      var n := |cursors| - 1;
      && PagesAlong(cfg, cursors)[..n] == PagesAlong(cfg, cursors[..n])
      && PagesAlong(cfg, cursors)[n] == ReposOf(l, remote[cursors[n]].repos)
  {
  }

  lemma {:induction false} PayloadsOfPages(workers: nat, l: Limits, remote: map<string, RemotePage>,
                                           cursors: seq<string>)
    requires forall c <- cursors :: c in remote
    ensures
      var cfg := Connect(workers, l, remote);
      Map(Payload, NestedItems(PagesAlong(cfg, cursors))) == SequentialBackfill(l, remote, cursors)
  {
    if cursors == [] {
    } else {
      var n := |cursors| - 1;
      var cfg := Connect(workers, l, remote);
      var pages := PagesAlong(cfg, cursors);
      PayloadsOfPages(workers, l, remote, cursors[..n]);
      PagesAlongLast(workers, l, remote, cursors);
      PayloadsOfPage(l, n + 1, remote[cursors[n]].repos, 0);
      NestedItemsLast(pages);
      MapConcat(Payload, NestedItems(pages[..n]), ItemsOfJobs(PageJobs(n + 1, pages[n], 0)));
    }
  }

  /** An uncancelled backfill at rest has handed the engine exactly what the plain loop over the network would:
      for every page, every active repository, the items of its one walk. */
  ghost predicate Finished(cfg: Config, cursors: seq<string>, s: State) {
    Chain(cfg, cursors) && Reachable(cfg, s) && !s.cancelled && Quiescent(s)
  }

  lemma BackfillRefinesLoop(workers: nat, l: Limits, remote: map<string, RemotePage>, cursors: seq<string>, s: State)
    requires Finished(Connect(workers, l, remote), cursors, s)
    ensures forall c <- cursors :: c in remote
    ensures multiset(Map(Payload, s.log.ingested)) == multiset(SequentialBackfill(l, remote, cursors))
  {
    var cfg := Connect(workers, l, remote);
    PaginationComplete(cfg, cursors, s);
    PayloadsOfPages(workers, l, remote, cursors);
    MapPermutation(Payload, s.log.ingested, NestedItems(PagesAlong(cfg, cursors)));
  }

  /** With a retry cap R, fetches return as soon as each repository answers R times with something other than a stutter;
      so the pipeline's progress needs nothing else of the network. */
  lemma CappedFetchesReturn(workers: nat, l: Limits, remote: map<string, RemotePage>)
    requires l.maxRetries > 0
    requires forall c <- remote :: forall r <- remote[c].repos ::
               r.Some? ==> |Destutter(Attempts(r.value.script))| >= l.maxRetries
    ensures FetchesReturn(Connect(workers, l, remote))
  {
    var cfg := Connect(workers, l, remote);
    forall c <- cfg.server, r <- cfg.server[c].repos ensures r.Some? ==> r.value.plan.completes {
      var i :| 0 <= i < |cfg.server[c].repos| && cfg.server[c].repos[i] == r;
      var remoteRepo := remote[c].repos[i];
      assert remoteRepo in remote[c].repos;
      if remoteRepo.Some? {
        CappedRunsReturn(l, l.BaseWait(ReadOperation), 0, Attempts(remoteRepo.value.script));
      }
    }
  }

  lemma ConnectedChain(workers: nat, l: Limits, remote: map<string, RemotePage>, cursors: seq<string>)
    requires Chain(Connect(workers, l, remote), cursors)
    ensures forall c <- cursors :: c in remote
    ensures Answered(Connect(workers, l, remote), cursors) == cursors
  {
    ChainIsKnown(Connect(workers, l, remote), cursors);
  }

  // ---- How many steps a backfill takes

  /** A filtered repository takes one step. Any other is offered and accepted, taken, walked and finished, with one step
      per call, and seven per item from the tree to the collector. */
  function NetworkPageSteps(l: Limits, repos: seq<Option<Remote>>, k: nat): nat
    decreases |repos| - k
  {
    if k >= |repos| then 0
    else if repos[k].None? || !repos[k].value.active then 1 + NetworkPageSteps(l, repos, k + 1)
    else
      var script := repos[k].value.script;
      5 + JobRun(l, script).calls + 7 * |JobItems(l, script)| + NetworkPageSteps(l, repos, k + 1)
  }

  /** And a page one for its request. */
  function NetworkSteps(l: Limits, remote: map<string, RemotePage>, cursors: seq<string>, k: nat): nat
    requires forall c <- cursors :: c in remote
    decreases |cursors| - k
  {
    if k >= |cursors| then 0
    else 1 + NetworkPageSteps(l, remote[cursors[k]].repos, 0) + NetworkSteps(l, remote, cursors, k + 1)
  }

  lemma {:induction false} PageStepsAre(l: Limits, page: nat, repos: seq<Option<Remote>>, k: nat)
    ensures ReposCost(page, ReposOf(l, repos), k) == NetworkPageSteps(l, repos, k)
    decreases |repos| - k
  {
    if k >= |repos| {
    } else {
      PageStepsAre(l, page, repos, k + 1);
    }
  }

  lemma {:induction false} StepsAre(workers: nat, l: Limits, remote: map<string, RemotePage>, cursors: seq<string>,
                                    k: nat)
    requires forall c <- cursors :: c in remote
    ensures PagesCost(Connect(workers, l, remote), cursors, k) == NetworkSteps(l, remote, cursors, k)
    decreases |cursors| - k
  {
    if k >= |cursors| {
    } else {
      assert cursors[k] in cursors;
      PageStepsAre(l, k + 1, remote[cursors[k]].repos, 0);
      StepsAre(workers, l, remote, cursors, k + 1);
    }
  }

  /** The length of an uncancelled backfill, in terms of the network: it is at rest exactly when it has made so many
      steps, for any number of workers. */
  lemma BackfillLength(workers: nat, l: Limits, remote: map<string, RemotePage>, cursors: seq<string>, steps: seq<Step>)
    requires workers >= 1 && FetchesReturn(Connect(workers, l, remote)) && Chain(Connect(workers, l, remote), cursors)
    requires Legal(Connect(workers, l, remote), Init(Connect(workers, l, remote)), steps) && NoContextStep(steps)
    ensures forall c <- cursors :: c in remote
    ensures
      var cfg := Connect(workers, l, remote);
      Quiescent(After(cfg, Init(cfg), steps)) <==> |steps| == NetworkSteps(l, remote, cursors, 0)
  {
    var cfg := Connect(workers, l, remote);
    ConnectedChain(workers, l, remote, cursors);
    RunLength(cfg, cursors, steps);
    StepsAre(workers, l, remote, cursors, 0);
  }

  // ---- When cancelling the backfill of a network can hang

  /** Of the first n slots of a page: the items of the walks, and the fetches that never return. */
  function WalkItems(l: Limits, repos: seq<Option<Remote>>, n: nat): nat {
    if n == 0 || n > |repos| then 0
    else
      var r := repos[n - 1];
      WalkItems(l, repos, n - 1) + if r.Some? && r.value.active then |JobItems(l, r.value.script)| else 0
  }

  function EndlessFetches(l: Limits, repos: seq<Option<Remote>>, n: nat): nat {
    if n == 0 || n > |repos| then 0
    else
      var r := repos[n - 1];
      EndlessFetches(l, repos, n - 1)
      + if r.Some? && r.value.active && JobRun(l, r.value.script).result.Pending? then 1 else 0
  }

  /** The first n slots of a page of the network. */
  datatype RemoteCut = RemoteCut(repos: seq<Option<Remote>>, n: nat)

  function CutItems(l: Limits): RemoteCut -> nat {
    (c: RemoteCut) => WalkItems(l, c.repos, c.n)
  }

  function CutEndless(l: Limits): RemoteCut -> nat {
    (c: RemoteCut) => EndlessFetches(l, c.repos, c.n)
  }

  /** Beginnings of the pages with more than 2W items and fewer than W fetches that never return. */
  ghost predicate NetworkOverfills(workers: nat, l: Limits, remote: map<string, RemotePage>, cursors: seq<string>,
                                   cuts: seq<RemoteCut>)
    requires forall c <- cursors :: c in remote
  {
    && |cuts| == |cursors|
    && (forall i :: 0 <= i < |cuts| ==> cuts[i].repos == remote[cursors[i]].repos && cuts[i].n <= |cuts[i].repos|)
    && Tally(CutEndless(l), cuts) < workers && Tally(CutItems(l), cuts) > 2 * workers
  }

  /** A fetch that never returns yields nothing, so the plan's yield is what the job sends. */
  lemma PlanWeighs(l: Limits, script: seq<FetchAttempt>)
    ensures WeightOf(ItemYield, PlanOf(l, script)) == |JobItems(l, script)|
    ensures WeightOf(TarPit, PlanOf(l, script)) == if JobRun(l, script).result.Pending? then 1 else 0
  {
    WalkRunsAtMostOnce(l, script);
  }

  lemma {:induction false} RemoteWeighs(l: Limits, repos: seq<Option<Remote>>, n: nat)
    ensures UpTo(ItemYield, ReposOf(l, repos), n) == WalkItems(l, repos, n)
    ensures UpTo(TarPit, ReposOf(l, repos), n) == EndlessFetches(l, repos, n)
  {
    if n == 0 || n > |repos| {
    } else {
      RemoteWeighs(l, repos, n - 1);
      assert ReposOf(l, repos)[n - 1] == ListingOf(l, repos[n - 1]);
      if repos[n - 1].Some? { PlanWeighs(l, repos[n - 1].value.script); }
    }
  }

  /** The same beginnings, seen by the pipeline. */
  lemma CutsWeighAlike(l: Limits, cuts: seq<Cut>, remoteCuts: seq<RemoteCut>)
    requires |cuts| == |remoteCuts|
    requires forall i :: 0 <= i < |cuts| ==> cuts[i] == Cut(ReposOf(l, remoteCuts[i].repos), remoteCuts[i].n)
    ensures Tally(CutWeight(ItemYield), cuts) == Tally(CutItems(l), remoteCuts)
    ensures Tally(CutWeight(TarPit), cuts) == Tally(CutEndless(l), remoteCuts)
  {
    forall i | 0 <= i < |cuts|
      ensures CutWeight(ItemYield)(cuts[i]) == CutItems(l)(remoteCuts[i])
      ensures CutWeight(TarPit)(cuts[i]) == CutEndless(l)(remoteCuts[i])
    {
      RemoteWeighs(l, remoteCuts[i].repos, remoteCuts[i].n);
    }
    TallyAtMost(CutWeight(ItemYield), cuts, CutItems(l), remoteCuts);
    TallyAtMost(CutItems(l), remoteCuts, CutWeight(ItemYield), cuts);
    TallyAtMost(CutWeight(TarPit), cuts, CutEndless(l), remoteCuts);
    TallyAtMost(CutEndless(l), remoteCuts, CutWeight(TarPit), cuts);
  }

  lemma NetworkCuts(workers: nat, l: Limits, remote: map<string, RemotePage>, cursors: seq<string>, cuts: seq<Cut>)
    returns (remoteCuts: seq<RemoteCut>)
    requires (forall c <- cursors :: c in remote) && Overfills(Connect(workers, l, remote), cursors, cuts)
    ensures NetworkOverfills(workers, l, remote, cursors, remoteCuts)
  {
    assert forall i :: 0 <= i < |cursors| ==> cursors[i] in cursors;
    remoteCuts := seq(|cursors|, i requires 0 <= i < |cursors| => RemoteCut(remote[cursors[i]].repos, cuts[i].n));
    CutsWeighAlike(l, cuts, remoteCuts);
  }

  lemma PipelineCutsOf(workers: nat, l: Limits, remote: map<string, RemotePage>, cursors: seq<string>,
                       remoteCuts: seq<RemoteCut>) returns (cuts: seq<Cut>)
    requires (forall c <- cursors :: c in remote) && NetworkOverfills(workers, l, remote, cursors, remoteCuts)
    requires Chain(Connect(workers, l, remote), cursors)
    ensures Overfills(Connect(workers, l, remote), cursors, cuts)
  {
    assert forall i :: 0 <= i < |cursors| ==> cursors[i] in cursors;
    cuts := seq(|cursors|, i requires 0 <= i < |cursors| => Cut(ReposOf(l, remoteCuts[i].repos), remoteCuts[i].n));
    CutsWeighAlike(l, cuts, remoteCuts);
    ChainIsKnown(Connect(workers, l, remote), cursors);
  }

  /** Cancelling a backfill can leave the worker pool hanging for ever if and only if beginnings of the network's pages
      overfill a channel; if all fetches return, if and only if its plain loop would ingest more than 2W items. */
  lemma BackfillHangsIff(workers: nat, l: Limits, remote: map<string, RemotePage>, cursors: seq<string>)
    requires workers >= 1 && Chain(Connect(workers, l, remote), cursors)
    ensures forall c <- cursors :: c in remote
    ensures
      var cfg := Connect(workers, l, remote);
      (exists s :: Reachable(cfg, s) && s.cancelled && NeverReturns(cfg, s))
      <==> (exists cuts :: NetworkOverfills(workers, l, remote, cursors, cuts))
    ensures
      var cfg := Connect(workers, l, remote);
      FetchesReturn(cfg) ==>
        ((exists s :: Reachable(cfg, s) && s.cancelled && NeverReturns(cfg, s))
         <==> |SequentialBackfill(l, remote, cursors)| > 2 * workers)
  {
    var cfg := Connect(workers, l, remote);
    ConnectedChain(workers, l, remote, cursors);
    FiniteShutdownHangsIff(cfg, cursors);
    PayloadsOfPages(workers, l, remote, cursors);
    if cuts :| Overfills(cfg, cursors, cuts) {
      var remoteCuts := NetworkCuts(workers, l, remote, cursors, cuts);
    }
    if remoteCuts :| NetworkOverfills(workers, l, remote, cursors, remoteCuts) {
      var cuts := PipelineCutsOf(workers, l, remote, cursors, remoteCuts);
    }
  }

  // ---- The graph after repeated backfills

  /** An item the engine has no query for writes nothing: a write that is not valid. */
  function WriteOf(item: RepoItem): Write {
    if WritesGraph(item) then ToWrite(item) else WriteFollow("", "", None, "", 0)
  }

  /** Its transaction is what the engine does with the item. */
  lemma WriteOfIsIngest(g: Graph, item: RepoItem, now: int)
    ensures ApplyWrite(g, WriteOf(item), now) == if Storable(item) then AfterIngest(g, item, now) else g
  {
    IngestIsWrite(g, item, now);
  }

  /** The transactions of one backfill: its ingested items, committed in any order and at any times. */
  ghost predicate IsBackfill(s: State, h: seq<Event>) {
    multiset(Writes(h)) == multiset(Map(WriteOf, Map(Payload, s.log.ingested)))
  }

  /** `passes` are the transactions of finished backfills of the same network, each with its own number of workers
      and its own interleaving. */
  ghost predicate AreBackfills(l: Limits, remote: map<string, RemotePage>, cursors: seq<string>,
                               passes: seq<seq<Event>>) {
    forall h <- passes :: exists workers: nat, s: State ::
      Finished(Connect(workers, l, remote), cursors, s) && IsBackfill(s, h)
  }

  lemma BackfillIsPass(l: Limits, remote: map<string, RemotePage>, cursors: seq<string>,
                       workers: nat, s: State, h: seq<Event>)
    requires Finished(Connect(workers, l, remote), cursors, s) && IsBackfill(s, h)
    ensures forall c <- cursors :: c in remote
    ensures IsPass(h, Map(WriteOf, SequentialBackfill(l, remote, cursors)))
  {
    BackfillRefinesLoop(workers, l, remote, cursors, s);
    MapPermutation(WriteOf, Map(Payload, s.log.ingested), SequentialBackfill(l, remote, cursors));
  }

  /** Backfilling an unchanged network often enough drives the graph to the closure of its start and profile ids under
      its follows, whatever the numbers of workers and the orders of commit were: as many backfills as there are items
      always suffice. */
  lemma RepeatedBackfillsConverge(g: Graph, l: Limits, remote: map<string, RemotePage>, cursors: seq<string>,
                                  passes: seq<seq<Event>>)
    requires forall c <- cursors :: c in remote
    requires AreBackfills(l, remote, cursors, passes)
    requires |passes| >= |SequentialBackfill(l, remote, cursors)|
    ensures
      var writes := Map(WriteOf, SequentialBackfill(l, remote, cursors));
      && Fixed(RunAll(g, passes), writes)
      && (forall id :: id in RunAll(g, passes).nodes <==> InClosure(g, writes, id))
      && (forall e :: e in RunAll(g, passes).edges <==> EdgeInClosure(g, writes, e))
  {
    var writes := Map(WriteOf, SequentialBackfill(l, remote, cursors));
    forall h <- passes ensures IsPass(h, writes) {
      var workers: nat, s: State :| Finished(Connect(workers, l, remote), cursors, s) && IsBackfill(s, h);
      BackfillIsPass(l, remote, cursors, workers, s, h);
    }
    ReplayConverges(g, passes, writes);
    FixedPointIsClosure(g, passes, writes);
  }

  // ---- The in-flight counter of an ordinary account

  /** A server with one page, one active repository and n items. */
  function OneRepo(workers: nat, cfg: Config, item: RepoItem, n: nat): Config {
    cfg.(workers := workers,
         server := map["" := Page([Some(Listing("did:plc:a", true, Plan(1, true, seq(n, _ => item))))], None)])
  }

  lemma RestIsReachable(cfg: Config, cursors: seq<string>)
    requires cfg.workers >= 1 && FetchesReturn(cfg) && Finite(cfg, cursors)
    ensures exists s :: Reachable(cfg, s) && !s.cancelled && Quiescent(s)
  {
    HealthyInit(cfg, cursors);
    var steps := DriveToRest(cfg, cursors, Init(cfg));
    HealthyRun(cfg, cursors, Init(cfg), steps);
    assert Reachable(cfg, After(cfg, Init(cfg), steps));
  }

  lemma OneRepoCounts(cfg: Config, cursors: seq<string>, s: State, n: nat)
    requires cursors == [""] && Finished(cfg, cursors, s)
    requires "" in cfg.server && |cfg.server[""].repos| == 1 && !FilterRepo(cfg.server[""].repos[0])
    requires |cfg.server[""].repos[0].value.plan.items| == n
    ensures s.jobsInflight == 1 - n
  {
    PaginationComplete(cfg, cursors, s);
    InflightAtRest(cfg, s);
    RefinesNestedLoop(cfg, s);
    var repos := cfg.server[""].repos;
    var job := Job(1, 0, repos[0].value);
    var pages := PagesAlong(cfg, cursors);
    assert PageJobs(1, repos, 1) == [];
    assert PageJobs(1, repos, 0) == [job];
    assert pages[..0] == [] && NestedJobs(pages) == [job];
    ItemsOfOne(job);
    PayloadsOfJob(job, 0);
    assert |multiset(s.log.emitted)| == |s.log.emitted| && |multiset(NestedItems(pages))| == n;
    assert |multiset(s.log.accepted)| == |s.log.accepted| && |multiset(NestedJobs(pages))| == 1;
  }

  /** One account whose walk sends n items: the backfill can come to rest, and when it does jobsInflight stands
      at 1 - n. */
  lemma InflightDrifts(base: Config, workers: nat, item: RepoItem, n: nat)
    requires workers >= 1
    ensures
      var cfg := OneRepo(workers, base, item, n);
      && (exists s :: Reachable(cfg, s) && !s.cancelled && Quiescent(s))
      && forall s :: Reachable(cfg, s) && !s.cancelled && Quiescent(s) ==> s.jobsInflight == 1 - n
  {
    var cfg := OneRepo(workers, base, item, n);
    var cursors := [""];
    assert Chain(cfg, cursors);
    RestIsReachable(cfg, cursors);
    forall s | Reachable(cfg, s) && !s.cancelled && Quiescent(s) ensures s.jobsInflight == 1 - n {
      OneRepoCounts(cfg, cursors, s, n);
    }
  }
}
