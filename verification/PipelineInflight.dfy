/** jobsInflight goes up per job and down per item: exactly for which listings it can fall below zero. */
module PipelineInflight {
  import opened Bags
  import opened Pipeline
  import opened PipelineLaws
  import opened PipelineResults
  import opened Pagination
  import opened PipelineProgress
  import opened PipelineCuts

  lemma {:induction false} HeldBagSize(ts: seq<Submitter>)
    ensures |Bag(HeldJob, ts)| == Tally(HeldWeight(JobCount), ts)
  {
    if ts == [] {
    } else {
      HeldBagSize(ts[..|ts| - 1]);
    }
  }

  /** Uncancelled, jobsInflight is the number of active repositories gone past minus the results subtracted. */
  lemma InflightIsOffered(cfg: Config, s: State)
    requires Reachable(cfg, s) && !s.cancelled
    ensures s.jobsInflight == Tally(OfferedWeight(JobCount), s.submitters) - |s.log.consumed|
  {
    ReachableInv(cfg, s);
    ReachableWeighed(cfg, JobCount, s);
    TallyEach(JobWeight(JobCount), s.log.accepted, 1);
    HeldBagSize(s.submitters);
  }

  // ---- Never below zero

  /** Some beginning of the page that p leads to has more items to yield than active repositories, and does not keep all
      the workers in fetches that never return. */
  ghost predicate Overdraws(cfg: Config, p: seq<string>, n: nat) {
    && Path(cfg, p) && Known(cfg, p) && p[|p| - 1] in cfg.server
    && var repos := cfg.server[p[|p| - 1]].repos;
       n <= |repos| && UpTo(ItemYield, repos, n) > UpTo(JobCount, repos, n) && UpTo(TarPit, repos, n) < cfg.workers
  }

  lemma CutOverdraws(cfg: Config, p: seq<string>, cuts: seq<Cut>, i: nat)
    requires Selected(cfg, p, cuts) && Tally(CutWeight(TarPit), cuts) < cfg.workers && i < |cuts|
    requires CutWeight(ItemYield)(cuts[i]) > CutWeight(JobCount)(cuts[i])
    ensures Overdraws(cfg, p[..i + 1], cuts[i].n)
  {
    PathPrefix(cfg, p, i + 1);
    assert p[..i + 1][i] == p[i] && cuts[i].repos == cfg.server[p[i]].repos;
    TallyMember(CutWeight(TarPit), cuts, i);
  }

  /** As many jobs as some beginnings of the pages have are accepted, and no item comes from elsewhere. */
  lemma NegativeOverdraws(cfg: Config, s: State) returns (p: seq<string>, n: nat)
    requires cfg.workers >= 1 && Reachable(cfg, s) && s.jobsInflight < 0
    ensures Overdraws(cfg, p, n)
  {
    ReachableInv(cfg, s);
    EmittedSize(s);
    var path, cuts := BegunWithinCuts(cfg, s);
    if forall i :: 0 <= i < |cuts| ==> CutWeight(ItemYield)(cuts[i]) <= CutWeight(JobCount)(cuts[i]) {
      TallyAtMost(CutWeight(ItemYield), cuts, CutWeight(JobCount), cuts);
      assert false;
    }
    var i :| 0 <= i < |cuts| && CutWeight(ItemYield)(cuts[i]) > CutWeight(JobCount)(cuts[i]);
    CutOverdraws(cfg, path, cuts, i);
    p, n := path[..i + 1], cuts[i].n;
  }

  // ---- Working off chosen cuts

  /** Each submitter has gone to its cut and everything it submitted has been worked off. */
  ghost predicate RestAt(s: State, stops: seq<nat>) {
    && Dry(s, stops) && s.items == [] && (forall w <- s.ingestWorkers :: w.IngestIdle?)
    && s.results == [] && s.collector.Waiting?
  }

  lemma DriveStep(cfg: Config, s: State, cuts: seq<Cut>) returns (step: Step)
    requires Driving(cfg, s, cuts) && !RestAt(s, Stops(cuts))
    ensures Enabled(cfg, s, step) && !step.ListerStep? && !step.ContextStep?
    ensures WithinStops(Apply(cfg, s, step), Stops(cuts))
  {
    ReachableInv(cfg, s);
    SpareWorker(cfg, s, cuts);
    if s.collector.Received? {
      step := CollectorStep(Subtract);
    } else if s.results != [] {
      step := CollectorStep(Collect);
    } else if s.items != [] || exists w <- s.ingestWorkers :: !w.IngestIdle? {
      step := LateStep(cfg, s);
      OtherActors(cfg, s, step);
    } else {
      step := EarlyStep(cfg, s, Stops(cuts));
    }
  }

  lemma DriveTo(cfg: Config, s: State, cuts: seq<Cut>) returns (t: State)
    requires Driving(cfg, s, cuts)
    ensures Driving(cfg, t, cuts) && RestAt(t, Stops(cuts))
    decreases Load(s)
  {
    t := s;
    if !RestAt(s, Stops(cuts)) {
      var step := DriveStep(cfg, s, cuts);
      DrivingStep(cfg, s, cuts, step);
      t := DriveTo(cfg, Apply(cfg, s, step), cuts);
    }
  }

  /** At such a rest jobsInflight stands at the jobs of the cuts minus their items. */
  lemma InflightAtCuts(cfg: Config, s: State, cuts: seq<Cut>)
    requires Driving(cfg, s, cuts) && RestAt(s, Stops(cuts))
    ensures s.jobsInflight == Tally(CutWeight(JobCount), cuts) - Tally(CutWeight(ItemYield), cuts)
  {
    ReachableInv(cfg, s);
    DryHoldsNothing(cfg, s, cuts);
    DryAtCuts(cfg, s, cuts);
    BagEmpty(IngestItem, s.ingestWorkers);
    EmittedSize(s);
  }

  /** Only the last page, up to slot n. */
  function LastPageOnly(cfg: Config, p: seq<string>, n: nat): (cuts: seq<Cut>)
    requires forall c <- p :: c in cfg.server
    ensures |cuts| == |p|
  {
    seq(|p|, i requires 0 <= i < |p| => Cut(cfg.server[p[i]].repos, if i == |p| - 1 then n else 0))
  }

  lemma LastPageWeighs(cfg: Config, p: seq<string>, n: nat, wt: Weight)
    requires p != [] && forall c <- p :: c in cfg.server
    ensures Tally(CutWeight(wt), LastPageOnly(cfg, p, n)) == UpTo(wt, cfg.server[p[|p| - 1]].repos, n)
  {
    TallyEach(CutWeight(wt), LastPageOnly(cfg, p, n)[..|p| - 1], 0);
  }

  lemma OverdrawnGoesNegative(cfg: Config, p: seq<string>, n: nat) returns (t: State)
    requires Overdraws(cfg, p, n)
    ensures Reachable(cfg, t) && !t.cancelled && t.jobsInflight < 0
  {
    var cuts := LastPageOnly(cfg, p, n);
    LastPageWeighs(cfg, p, n, JobCount);
    LastPageWeighs(cfg, p, n, ItemYield);
    LastPageWeighs(cfg, p, n, TarPit);
    assert forall i :: 0 <= i < |p| ==> p[i] in p;
    var s := ReadyToDrive(cfg, p, cuts);
    t := DriveTo(cfg, s, cuts);
    InflightAtCuts(cfg, t, cuts);
  }

  /** For every listing: jobsInflight can fall below zero, cancelled or not, if and only if some page has a beginning
      with more items to yield than active repositories, which does not keep all the workers in fetches that never
      return. It then can without cancellation. */
  lemma InflightNegativeIff(cfg: Config)
    requires cfg.workers >= 1
    ensures (exists s :: Reachable(cfg, s) && s.jobsInflight < 0) <==> (exists p, n :: Overdraws(cfg, p, n))
    ensures (exists s :: Reachable(cfg, s) && !s.cancelled && s.jobsInflight < 0)
       <==> (exists p, n :: Overdraws(cfg, p, n))
  {
    if p, n :| Overdraws(cfg, p, n) {
      var t := OverdrawnGoesNegative(cfg, p, n);
    }
    if s :| Reachable(cfg, s) && s.jobsInflight < 0 {
      var p, n := NegativeOverdraws(cfg, s);
    }
  }
}
