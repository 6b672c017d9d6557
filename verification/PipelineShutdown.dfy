/** After cancellation: how a run can end, when the worker pool hangs, and exactly for which listings it can. */
module PipelineShutdown {
  import opened Errors
  import opened Bags
  import opened Pipeline
  import opened PipelineLaws
  import opened PipelineResults
  import opened Pagination
  import opened PipelineProgress
  import opened PipelineCuts

  predicate WorkerStep(step: Step) {
    step.RepoStep? || step.IngestStep?
  }

  ghost predicate LiveWorker(s: State) {
    || (exists w <- s.repoWorkers :: !w.RepoGone?)
    || (exists w <- s.ingestWorkers :: !w.IngestGone?)
  }

  ghost predicate SomeWorkerCanMove(cfg: Config, s: State) {
    exists step :: WorkerStep(step) && Enabled(cfg, s, step)
  }

  /** No worker can move now or in any continuation. */
  ghost predicate StuckForGood(cfg: Config, s: State) {
    forall steps :: Legal(cfg, s, steps) ==> !SomeWorkerCanMove(cfg, After(cfg, s, steps))
  }

  ghost predicate RepoBlocked(cfg: Config, s: State) {
    forall w <- s.repoWorkers :: w.RepoGone? || (w.AtSend? && |s.items| == Capacity(cfg))
  }

  /** First shape: the collector is gone, results is full, and an ingest worker is at its send. */
  ghost predicate ResultsStuck(cfg: Config, s: State) {
    && s.cancelled && s.collector.CollectorGone? && |s.results| == Capacity(cfg)
    && (exists w <- s.ingestWorkers :: w.Reporting?)
    && (forall w <- s.ingestWorkers :: w.Reporting? || w.IngestGone?)
    && RepoBlocked(cfg, s)
  }

  /** Second shape: all ingest workers are gone, items is full, and a repo worker is at its send. */
  ghost predicate ItemsStuck(cfg: Config, s: State) {
    && s.cancelled && (forall w <- s.ingestWorkers :: w.IngestGone?)
    && (exists w <- s.repoWorkers :: w.AtSend?)
    && |s.items| == Capacity(cfg) && RepoBlocked(cfg, s)
  }

  ghost predicate IngestBlocked(cfg: Config, s: State) {
    forall w <- s.ingestWorkers :: w.IngestGone? || (w.Reporting? && |s.results| == Capacity(cfg))
  }

  /** Once the context is cancelled, a worker that has not left and is not at a send into a full channel can move. */
  lemma ExitStep(cfg: Config, s: State) returns (step: Step)
    requires s.cancelled && !(RepoBlocked(cfg, s) && IngestBlocked(cfg, s)) && Sized(cfg, s)
    ensures WorkerStep(step) && Enabled(cfg, s, step)
  {
    if r :| 0 <= r < |s.repoWorkers| && !s.repoWorkers[r].RepoGone?
            && !(s.repoWorkers[r].AtSend? && |s.items| == Capacity(cfg))
    {
      step := RepoStep(r, match s.repoWorkers[r]
                          case RepoIdle => LeaveRepo
                          case AtSend(_, _) => SendItem
                          case _ => AbandonJob);
    } else {
      var g :| 0 <= g < |s.ingestWorkers| && !s.ingestWorkers[g].IngestGone?
               && !(s.ingestWorkers[g].Reporting? && |s.results| == Capacity(cfg));
      step := IngestStep(g, match s.ingestWorkers[g]
                            case IngestIdle => LeaveIngest
                            case Holding(_) => RunIngest(None)
                            case _ => SendResult);
    }
  }

  lemma CannotMoveNow(cfg: Config, s: State)
    requires s.cancelled && Sized(cfg, s) && !SomeWorkerCanMove(cfg, s)
    ensures RepoBlocked(cfg, s) && IngestBlocked(cfg, s)
  {
    if !(RepoBlocked(cfg, s) && IngestBlocked(cfg, s)) {
      var step := ExitStep(cfg, s);
    }
  }

  lemma BlockedCannotMove(cfg: Config, s: State)
    requires RepoBlocked(cfg, s) && (IngestBlocked(cfg, s) || forall w <- s.ingestWorkers :: w.IngestGone?)
    ensures !SomeWorkerCanMove(cfg, s)
  {
    forall step | WorkerStep(step) ensures !Enabled(cfg, s, step) {
      if step.RepoStep? && step.r < |s.repoWorkers| { assert s.repoWorkers[step.r] in s.repoWorkers; }
      if step.IngestStep? && step.g < |s.ingestWorkers| { assert s.ingestWorkers[step.g] in s.ingestWorkers; }
    }
  }

  /** Both shapes keep every worker where it is, whatever the others do. */
  lemma ShapePersistsStep(cfg: Config, s: State, step: Step)
    requires (ResultsStuck(cfg, s) || ItemsStuck(cfg, s)) && Enabled(cfg, s, step)
    ensures ResultsStuck(cfg, s) ==> ResultsStuck(cfg, Apply(cfg, s, step))
    ensures ItemsStuck(cfg, s) ==> ItemsStuck(cfg, Apply(cfg, s, step))
  {
    BlockedCannotMove(cfg, s);
    assert !WorkerStep(step);
  }

  lemma {:induction false} ShapePersists(cfg: Config, s: State, steps: seq<Step>)
    requires (ResultsStuck(cfg, s) || ItemsStuck(cfg, s)) && Legal(cfg, s, steps)
    ensures ResultsStuck(cfg, s) ==> ResultsStuck(cfg, After(cfg, s, steps))
    ensures ItemsStuck(cfg, s) ==> ItemsStuck(cfg, After(cfg, s, steps))
    decreases |steps|
  {
    if steps == [] {
    } else {
      ShapePersistsStep(cfg, s, steps[0]);
      ShapePersists(cfg, Apply(cfg, s, steps[0]), steps[1..]);
    }
  }

  /** With the collector still up, a full results channel is drained and the blocked ingest worker moves on. */
  lemma CollectorFreesWorkers(cfg: Config, s: State, g: nat)
    requires Sized(cfg, s) && !s.collector.CollectorGone?
    requires g < |s.ingestWorkers| && s.ingestWorkers[g].Reporting?
    ensures !StuckForGood(cfg, s)
  {
    var s1 := if s.collector.Received? then CollectorDo(s, Subtract) else s;
    var first := if s.collector.Received? then [CollectorStep(Subtract)] else [];
    var drain := if s.results != [] then [CollectorStep(Collect)] else [];
    assert first != [] ==> first[1..] == [];
    assert drain != [] ==> drain[1..] == [];
    assert After(cfg, s, first) == s1;
    var s2 := After(cfg, s1, drain);
    RunExtends(cfg, s, first, drain);
    assert Enabled(cfg, s2, IngestStep(g, SendResult));
    assert SomeWorkerCanMove(cfg, s2);
  }

  lemma StuckHasShape(cfg: Config, s: State)
    requires s.cancelled && Sized(cfg, s) && LiveWorker(s) && StuckForGood(cfg, s)
    requires RepoBlocked(cfg, s) && IngestBlocked(cfg, s)
    ensures ResultsStuck(cfg, s) || ItemsStuck(cfg, s)
  {
    if g :| 0 <= g < |s.ingestWorkers| && !s.ingestWorkers[g].IngestGone? {
      assert s.ingestWorkers[g] in s.ingestWorkers;
      if !s.collector.CollectorGone? {
        CollectorFreesWorkers(cfg, s, g);
      }
    } else {
      var w :| w in s.repoWorkers && !w.RepoGone?;
    }
  }

  /** The stuck states of a cancelled pool with a live worker are exactly the two shapes, and no state has both. */
  lemma StuckIffShape(cfg: Config, s: State)
    requires Reachable(cfg, s) && s.cancelled
    ensures LiveWorker(s) && StuckForGood(cfg, s) <==> ResultsStuck(cfg, s) || ItemsStuck(cfg, s)
    ensures !(ResultsStuck(cfg, s) && ItemsStuck(cfg, s))
  {
    ReachableInv(cfg, s);
    if ResultsStuck(cfg, s) || ItemsStuck(cfg, s) {
      forall steps | Legal(cfg, s, steps) ensures !SomeWorkerCanMove(cfg, After(cfg, s, steps)) {
        ShapePersists(cfg, s, steps);
        BlockedCannotMove(cfg, After(cfg, s, steps));
      }
    } else if LiveWorker(s) && StuckForGood(cfg, s) {
      assert Legal(cfg, s, []) && After(cfg, s, []) == s;
      CannotMoveNow(cfg, s);
      StuckHasShape(cfg, s);
    }
  }

  // ---- What blocked workers hold

  lemma BlockedIngestHolds(cfg: Config, s: State, g: nat)
    requires Inv(cfg, s) && g < |s.ingestWorkers| && s.ingestWorkers[g].Reporting? && |s.results| == Capacity(cfg)
    ensures Begun(s) > Capacity(cfg)
  {
    EmittedSize(s);
    var held := IngestItem(s.ingestWorkers[g]);
    assert |held| == 1;
    BagMember(IngestItem, s.ingestWorkers, g);
    SubBagSize(held, Bag(IngestItem, s.ingestWorkers));
  }

  lemma BlockedRepoHolds(cfg: Config, s: State, r: nat)
    requires Inv(cfg, s) && r < |s.repoWorkers| && s.repoWorkers[r].AtSend? && |s.items| == Capacity(cfg)
    ensures Begun(s) > Capacity(cfg)
  {
    EmittedSize(s);
    assert WalkInBounds(s.repoWorkers[r]);
    TallyMember(WalkLeft, s.repoWorkers, r);
  }

  /** Workers blocked at full channels have begun walks of more than 2W items. */
  lemma BlockedHoldsMany(cfg: Config, s: State)
    requires Inv(cfg, s) && RepoBlocked(cfg, s) && IngestBlocked(cfg, s) && LiveWorker(s)
    ensures Begun(s) > Capacity(cfg)
  {
    if g :| 0 <= g < |s.ingestWorkers| && !s.ingestWorkers[g].IngestGone? {
      assert s.ingestWorkers[g] in s.ingestWorkers;
      BlockedIngestHolds(cfg, s, g);
    } else {
      var r :| 0 <= r < |s.repoWorkers| && !s.repoWorkers[r].RepoGone?;
      assert s.repoWorkers[r] in s.repoWorkers;
      BlockedRepoHolds(cfg, s, r);
    }
  }

  /** Beginnings of the pages that yield more than 2W items and do not keep all the workers in fetches that never
      return. */
  ghost predicate Overfills(cfg: Config, p: seq<string>, cuts: seq<Cut>) {
    && Selected(cfg, p, cuts) && Tally(CutWeight(TarPit), cuts) < cfg.workers
    && Tally(CutWeight(ItemYield), cuts) > Capacity(cfg)
  }

  /** So they come from such beginnings. */
  lemma BlockedOverfills(cfg: Config, s: State) returns (p: seq<string>, cuts: seq<Cut>)
    requires cfg.workers >= 1 && Reachable(cfg, s) && RepoBlocked(cfg, s) && IngestBlocked(cfg, s) && LiveWorker(s)
    ensures Overfills(cfg, p, cuts)
  {
    ReachableInv(cfg, s);
    BlockedHoldsMany(cfg, s);
    p, cuts := BegunWithinCuts(cfg, s);
  }

  // ---- How cancelled runs end

  lemma NothingLeftToDo(cfg: Config, s: State)
    requires s.cancelled && forall step :: !Enabled(cfg, s, step)
    ensures s.done && BackfillReturned(s)
  {
    assert !Enabled(cfg, s, ContextStep(CloseDone));
    assert !Enabled(cfg, s, ListerStep(ListFail));
    assert !Enabled(cfg, s, CollectorStep(Subtract)) && !Enabled(cfg, s, CollectorStep(LeaveCollector));
    forall i | 0 <= i < |s.submitters| ensures SubmitterDone(s.submitters[i]) {
      assert !Enabled(cfg, s, SubmitterStep(i, SkipRepo)) && !Enabled(cfg, s, SubmitterStep(i, Offer));
      assert !Enabled(cfg, s, SubmitterStep(i, Refuse)) && !Enabled(cfg, s, SubmitterStep(i, Undo));
    }
  }

  lemma NoStepIsStuck(cfg: Config, s: State)
    requires forall step :: !Enabled(cfg, s, step)
    ensures StuckForGood(cfg, s) && !SomeWorkerCanMove(cfg, s)
  {
    forall steps | Legal(cfg, s, steps) ensures !SomeWorkerCanMove(cfg, After(cfg, s, steps)) {
      assert steps == [];
    }
  }

  /** Where a cancelled run can go no further, listing and submitting are over, BackfillRepos has returned and the done
      channel is closed; the workers have all left, or are in one of the two shapes. If no beginnings of the pages
      overfill a channel they have left. */
  lemma CancelledRunEnds(cfg: Config, s: State)
    requires cfg.workers >= 1 && Reachable(cfg, s) && s.cancelled && forall step :: !Enabled(cfg, s, step)
    ensures s.done && BackfillReturned(s)
    ensures !LiveWorker(s) || ResultsStuck(cfg, s) || ItemsStuck(cfg, s)
    ensures (forall p, cuts :: !Overfills(cfg, p, cuts)) ==> !LiveWorker(s)
  {
    NothingLeftToDo(cfg, s);
    NoStepIsStuck(cfg, s);
    StuckIffShape(cfg, s);
    if LiveWorker(s) {
      ReachableInv(cfg, s);
      CannotMoveNow(cfg, s);
      var p, cuts := BlockedOverfills(cfg, s);
    }
  }

  /** A select keeps its other cases when the context is cancelled, and sends into channels are not guarded: cancelling
      disables nothing but the calls of getRepo, which fail, and the cancellation itself. */
  lemma CancellationTakesNothingAway(cfg: Config, s: State, step: Step)
    requires Enabled(cfg, s, step) && step != ContextStep(Cancel)
    requires step.RepoStep? ==> !step.repo.Fetch? && !step.repo.StartWalk?
    ensures Enabled(cfg, s.(cancelled := true), step)
  {
  }

  /** The steps of BackfillRepos and the goroutines of its group. */
  predicate GroupStep(step: Step) {
    step.ListerStep? || step.SubmitterStep? || step.CollectorStep?
  }

  ghost predicate GroupDone(s: State) {
    !s.lister.AtPage? && (forall t <- s.submitters :: SubmitterDone(t)) && s.collector.CollectorGone?
  }

  /** A step that brings a cancelled group nearer its end: fail the listing, refuse, undo, leave. */
  lemma GroupExit(cfg: Config, s: State) returns (step: Step)
    requires s.cancelled && Paged(s) && !GroupDone(s)
    ensures GroupStep(step) && Enabled(cfg, s, step) && step != ListerStep(ListPage)
    ensures step.SubmitterStep? ==> !step.submitter.Accept?
  {
    if s.lister.AtPage? {
      step := ListerStep(ListFail);
    } else if !s.collector.CollectorGone? {
      step := CollectorStep(if s.collector.Received? then Subtract else LeaveCollector);
    } else {
      var i :| 0 <= i < |s.submitters| && !SubmitterDone(s.submitters[i]);
      var t := s.submitters[i];
      assert SubmitterFor(t, i + 1, s.log.listed[i]);
      step := SubmitterStep(i, if t.held.Submitting? then Refuse
                               else if t.held.Undoing? then Undo
                               else if FilterRepo(t.repos[t.next]) then SkipRepo else Offer);
    }
  }

  lemma GroupExitKeeps(cfg: Config, s: State, step: Step)
    requires Enabled(cfg, s, step) && GroupStep(step) && step != ListerStep(ListPage)
    requires step.SubmitterStep? ==> !step.submitter.Accept?
    ensures Apply(cfg, s, step).log.accepted == s.log.accepted && Apply(cfg, s, step).cancelled == s.cancelled
    ensures step.ListerStep? ==> !Apply(cfg, s, step).lister.AtPage? && Load(Apply(cfg, s, step)) == Load(s)
  {
    match step
    case ListerStep(m) =>
    case SubmitterStep(i, m) =>
    case CollectorStep(m) =>
  }

  /** Whatever the listing and however full the channels: once the context is cancelled, BackfillRepos can return by the
      steps of its own goroutines alone, without the workers, the watcher or another page, and without handing
      over another job. */
  lemma CancelledCanReturn(cfg: Config, s: State) returns (steps: seq<Step>)
    requires Inv(cfg, s) && s.cancelled
    ensures Legal(cfg, s, steps) && (forall step <- steps :: GroupStep(step))
    ensures
      var t := After(cfg, s, steps);
      GroupDone(t) && BackfillReturned(t) && t.log.accepted == s.log.accepted
    decreases if s.lister.AtPage? then 1 else 0, Load(s)
  {
    if GroupDone(s) {
      steps := [];
    } else {
      var step := GroupExit(cfg, s);
      InvStep(cfg, s, step);
      GroupExitKeeps(cfg, s, step);
      if !step.ListerStep? {
        LoadStep(cfg, s, step);
        ListerStays(cfg, s, step);
      }
      var rest := CancelledCanReturn(cfg, Apply(cfg, s, step));
      RunBegins(cfg, s, step, rest);
      steps := [step] + rest;
    }
  }

  /** A group that is done makes no more steps. */
  lemma GroupDoneRests(cfg: Config, s: State, step: Step)
    requires GroupDone(s) && GroupStep(step)
    ensures !Enabled(cfg, s, step)
  {
    if step.SubmitterStep? && step.i < |s.submitters| { assert SubmitterDone(s.submitters[step.i]); }
  }

  /** A worker found fetching when the context is cancelled can only give its job up, having sent nothing of it. */
  lemma CancelledFetchGivesUp(cfg: Config, s: State, r: nat, m: RepoMove)
    requires s.cancelled && RepoCan(cfg, s, r, m) && s.repoWorkers[r].Fetching?
    ensures RepoDo(cfg, s, r, m).repoWorkers[r] == RepoIdle
    ensures RepoDo(cfg, s, r, m).items == s.items && RepoDo(cfg, s, r, m).log.emitted == s.log.emitted
  {
  }

  // ---- Filling the channels

  /** On the way to cuts that overfill the channels, while the collector has not moved yet. */
  ghost predicate Filling(cfg: Config, s: State, cuts: seq<Cut>) {
    && Driving(cfg, s, cuts) && Tally(CutWeight(ItemYield), cuts) > Capacity(cfg)
    && s.collector.Waiting? && s.log.consumed == multiset{}
  }

  lemma KeepsCollector(cfg: Config, s: State, step: Step)
    requires Enabled(cfg, s, step) && !step.CollectorStep? && !step.ContextStep? && !step.ListerStep?
    ensures
      var s' := Apply(cfg, s, step);
      s'.collector == s.collector && s'.log.consumed == s.log.consumed
  {
    match step
    case SubmitterStep(i, m) => assert SubmitterDo(cfg, s, i, m).collector == s.collector;
    case RepoStep(r, m) => assert RepoDo(cfg, s, r, m).collector == s.collector;
    case IngestStep(g, m) => assert IngestDo(cfg, s, g, m).collector == s.collector;
  }

  lemma KeepsIngesters(cfg: Config, s: State, step: Step)
    requires Enabled(cfg, s, step) && (step.SubmitterStep? || step.RepoStep?)
    ensures
      var s' := Apply(cfg, s, step);
      s'.ingestWorkers == s.ingestWorkers && s'.log.received == s.log.received
  {
  }

  lemma FillingStep(cfg: Config, s: State, cuts: seq<Cut>, step: Step)
    requires Filling(cfg, s, cuts) && Enabled(cfg, s, step)
    requires !step.CollectorStep? && !step.ContextStep? && !step.ListerStep?
    requires WithinStops(Apply(cfg, s, step), Stops(cuts))
    ensures Filling(cfg, Apply(cfg, s, step), cuts) && Load(Apply(cfg, s, step)) < Load(s)
  {
    DrivingStep(cfg, s, cuts, step);
    KeepsCollector(cfg, s, step);
  }

  /** Short of the full channel somebody ahead of the collector can move. */
  lemma FillResultsStep(cfg: Config, s: State, cuts: seq<Cut>) returns (step: Step)
    requires Filling(cfg, s, cuts)
    requires |s.results| < Capacity(cfg) || forall w <- s.ingestWorkers :: !w.Reporting?
    ensures Enabled(cfg, s, step) && (step.SubmitterStep? || step.RepoStep? || step.IngestStep?)
    ensures WithinStops(Apply(cfg, s, step), Stops(cuts))
  {
    ReachableInv(cfg, s);
    SpareWorker(cfg, s, cuts);
    if s.items != [] || exists w <- s.ingestWorkers :: !w.IngestIdle? {
      step := LateStep(cfg, s);
      OtherActors(cfg, s, step);
    } else {
      if Dry(s, Stops(cuts)) {
        DryAtCuts(cfg, s, cuts);
        BagEmpty(IngestItem, s.ingestWorkers);
        EmittedSize(s);
        assert false;
      }
      step := EarlyStep(cfg, s, Stops(cuts));
    }
  }

  /** With the collector idle the results channel can be filled, and an ingest worker brought to its send. */
  lemma FillResults(cfg: Config, s: State, cuts: seq<Cut>) returns (t: State)
    requires Filling(cfg, s, cuts)
    ensures Filling(cfg, t, cuts) && |t.results| >= Capacity(cfg) && exists w <- t.ingestWorkers :: w.Reporting?
    decreases Load(s)
  {
    t := s;
    if |s.results| < Capacity(cfg) || forall w <- s.ingestWorkers :: !w.Reporting? {
      var step := FillResultsStep(cfg, s, cuts);
      FillingStep(cfg, s, cuts, step);
      t := FillResults(cfg, Apply(cfg, s, step), cuts);
    }
  }

  /** With the ingest workers idle the items channel can be filled, and a repo worker brought to its send. */
  lemma FillItems(cfg: Config, s: State, cuts: seq<Cut>) returns (t: State)
    requires Filling(cfg, s, cuts) && s.log.received == [] && forall w <- s.ingestWorkers :: w.IngestIdle?
    ensures Filling(cfg, t, cuts) && |t.items| >= Capacity(cfg) && exists w <- t.repoWorkers :: w.AtSend?
    ensures forall w <- t.ingestWorkers :: w.IngestIdle?
    decreases Load(s)
  {
    t := s;
    if |s.items| < Capacity(cfg) || forall w <- s.repoWorkers :: !w.AtSend? {
      ReachableInv(cfg, s);
      SpareWorker(cfg, s, cuts);
      if Dry(s, Stops(cuts)) {
        DryAtCuts(cfg, s, cuts);
        assert false;
      }
      var step := EarlyStep(cfg, s, Stops(cuts));
      FillingStep(cfg, s, cuts, step);
      KeepsIngesters(cfg, s, step);
      t := FillItems(cfg, Apply(cfg, s, step), cuts);
    }
  }

  // ---- From full channels to the two shapes

  /** The collector is gone and ingest worker g waits for room in results. */
  ghost predicate AwaitsResults(cfg: Config, s: State, g: nat) {
    && s.cancelled && s.collector.CollectorGone? && |s.results| >= Capacity(cfg)
    && g < |s.ingestWorkers| && s.ingestWorkers[g].Reporting?
  }

  /** The ingest workers are gone and repo worker r waits for room in items. */
  ghost predicate AwaitsItems(cfg: Config, s: State, r: nat) {
    && s.cancelled && (forall w <- s.ingestWorkers :: w.IngestGone?) && |s.items| >= Capacity(cfg)
    && r < |s.repoWorkers| && s.repoWorkers[r].AtSend?
  }

  lemma AwaitsStep(cfg: Config, s: State, step: Step, i: nat)
    requires Enabled(cfg, s, step)
    ensures AwaitsResults(cfg, s, i) ==> AwaitsResults(cfg, Apply(cfg, s, step), i)
    ensures AwaitsItems(cfg, s, i) ==> AwaitsItems(cfg, Apply(cfg, s, step), i)
  {
    if step.IngestStep? && step.g < |s.ingestWorkers| { assert s.ingestWorkers[step.g] in s.ingestWorkers; }
  }

  lemma ClearStep(cfg: Config, s: State, step: Step, i: nat)
    requires Inv(cfg, s) && s.cancelled && WorkerStep(step) && Enabled(cfg, s, step)
    ensures
      var t := Apply(cfg, s, step);
      && Inv(cfg, t) && t.cancelled && Load(t) < Load(s)
      && (AwaitsResults(cfg, s, i) ==> AwaitsResults(cfg, t, i))
      && (AwaitsItems(cfg, s, i) ==> AwaitsItems(cfg, t, i))
  {
    InvStep(cfg, s, step);
    LoadStep(cfg, s, step);
    AwaitsStep(cfg, s, step, i);
    UncancelledStep(cfg, s, step);
  }

  /** Let the workers of a cancelled pool make their steps until none can. */
  lemma ClearOut(cfg: Config, s: State, i: nat) returns (steps: seq<Step>)
    requires Inv(cfg, s) && s.cancelled
    ensures Legal(cfg, s, steps)
    ensures
      var t := After(cfg, s, steps);
      && Inv(cfg, t) && t.cancelled && !SomeWorkerCanMove(cfg, t)
      && (AwaitsResults(cfg, s, i) ==> AwaitsResults(cfg, t, i))
      && (AwaitsItems(cfg, s, i) ==> AwaitsItems(cfg, t, i))
    decreases Load(s)
  {
    if step :| WorkerStep(step) && Enabled(cfg, s, step) {
      ClearStep(cfg, s, step, i);
      var rest := ClearOut(cfg, Apply(cfg, s, step), i);
      RunBegins(cfg, s, step, rest);
      steps := [step] + rest;
    } else {
      steps := [];
    }
  }

  lemma {:induction false} IngestersLeave(cfg: Config, s: State, k: nat) returns (t: State)
    requires Reachable(cfg, s) && s.cancelled && k <= |s.ingestWorkers| && forall w <- s.ingestWorkers :: w.IngestIdle?
    ensures Reachable(cfg, t) && t == s.(ingestWorkers := t.ingestWorkers)
    ensures |t.ingestWorkers| == |s.ingestWorkers|
    ensures forall i :: 0 <= i < k ==> t.ingestWorkers[i].IngestGone?
    ensures forall i :: k <= i < |s.ingestWorkers| ==> t.ingestWorkers[i].IngestIdle?
  {
    t := s;
    if k == 0 {
    } else {
      t := IngestersLeave(cfg, s, k - 1);
      ReachableStep(cfg, t, IngestStep(k - 1, LeaveIngest));
      t := Apply(cfg, t, IngestStep(k - 1, LeaveIngest));
    }
  }

  lemma ClearToShape(cfg: Config, s: State, i: nat) returns (t: State)
    requires Reachable(cfg, s) && (AwaitsResults(cfg, s, i) || AwaitsItems(cfg, s, i))
    ensures Reachable(cfg, t)
    ensures if AwaitsResults(cfg, s, i) then ResultsStuck(cfg, t) else ItemsStuck(cfg, t)
  {
    ReachableInv(cfg, s);
    var steps := ClearOut(cfg, s, i);
    t := After(cfg, s, steps);
    ReachableRun(cfg, s, steps);
    CannotMoveNow(cfg, t);
    if AwaitsResults(cfg, s, i) {
      assert t.ingestWorkers[i] in t.ingestWorkers;
    } else {
      assert t.repoWorkers[i] in t.repoWorkers;
    }
  }

  lemma ReachResultsStuck(cfg: Config, s: State, cuts: seq<Cut>) returns (t: State)
    requires Filling(cfg, s, cuts)
    ensures Reachable(cfg, t) && ResultsStuck(cfg, t)
  {
    var full := FillResults(cfg, s, cuts);
    var g :| 0 <= g < |full.ingestWorkers| && full.ingestWorkers[g].Reporting?;
    ReachableStep(cfg, full, ContextStep(Cancel));
    var cancelled := full.(cancelled := true);
    assert Apply(cfg, full, ContextStep(Cancel)) == cancelled;
    ReachableStep(cfg, cancelled, CollectorStep(LeaveCollector));
    t := ClearToShape(cfg, cancelled.(collector := CollectorGone), g);
  }

  lemma ReachItemsStuck(cfg: Config, s: State, cuts: seq<Cut>) returns (t: State)
    requires Filling(cfg, s, cuts) && s.log.received == [] && forall w <- s.ingestWorkers :: w.IngestIdle?
    ensures Reachable(cfg, t) && ItemsStuck(cfg, t)
  {
    var full := FillItems(cfg, s, cuts);
    var r :| 0 <= r < |full.repoWorkers| && full.repoWorkers[r].AtSend?;
    ReachableStep(cfg, full, ContextStep(Cancel));
    var cancelled := full.(cancelled := true);
    assert Apply(cfg, full, ContextStep(Cancel)) == cancelled;
    var left := IngestersLeave(cfg, cancelled, |full.ingestWorkers|);
    assert AwaitsItems(cfg, left, r);
    t := ClearToShape(cfg, left, r);
  }

  // ---- Exactly when a shutdown can hang

  /** Start waits for all its workers: it returns in no continuation. */
  ghost predicate NeverReturns(cfg: Config, s: State) {
    forall steps :: Legal(cfg, s, steps) ==> LiveWorker(After(cfg, s, steps))
  }

  lemma ShapeNeverReturns(cfg: Config, s: State)
    requires ResultsStuck(cfg, s) || ItemsStuck(cfg, s)
    ensures NeverReturns(cfg, s)
  {
    forall steps | Legal(cfg, s, steps) ensures LiveWorker(After(cfg, s, steps)) {
      ShapePersists(cfg, s, steps);
    }
  }

  lemma HangOverfills(cfg: Config, s: State) returns (p: seq<string>, cuts: seq<Cut>)
    requires cfg.workers >= 1 && Reachable(cfg, s) && s.cancelled && NeverReturns(cfg, s)
    ensures Overfills(cfg, p, cuts)
  {
    ReachableInv(cfg, s);
    var steps := ClearOut(cfg, s, 0);
    var t := After(cfg, s, steps);
    ReachableRun(cfg, s, steps);
    CannotMoveNow(cfg, t);
    p, cuts := BlockedOverfills(cfg, t);
  }

  lemma OverfilledHangs(cfg: Config, p: seq<string>, cuts: seq<Cut>)
    requires Overfills(cfg, p, cuts)
    ensures exists s :: Reachable(cfg, s) && ResultsStuck(cfg, s)
    ensures exists s :: Reachable(cfg, s) && ItemsStuck(cfg, s)
  {
    var s := ReadyToDrive(cfg, p, cuts);
    var t := ReachResultsStuck(cfg, s, cuts);
    var u := ReachItemsStuck(cfg, s, cuts);
  }

  /** For any number of workers and every listing: cancelling can leave Start hanging for ever if and only if
      beginnings of its pages yield more than 2W items, the capacity of one channel, and contain fewer than W
      repositories whose fetch never returns. Then both shapes can come about. */
  lemma ShutdownHangsIff(cfg: Config)
    requires cfg.workers >= 1
    ensures (exists s :: Reachable(cfg, s) && s.cancelled && NeverReturns(cfg, s))
       <==> (exists p, cuts :: Overfills(cfg, p, cuts))
    ensures (exists s :: Reachable(cfg, s) && ResultsStuck(cfg, s)) <==> (exists p, cuts :: Overfills(cfg, p, cuts))
    ensures (exists s :: Reachable(cfg, s) && ItemsStuck(cfg, s)) <==> (exists p, cuts :: Overfills(cfg, p, cuts))
  {
    if p, cuts :| Overfills(cfg, p, cuts) {
      OverfilledHangs(cfg, p, cuts);
    }
    forall s | ResultsStuck(cfg, s) || ItemsStuck(cfg, s) ensures s.cancelled && NeverReturns(cfg, s) {
      ShapeNeverReturns(cfg, s);
    }
    if s :| Reachable(cfg, s) && s.cancelled && NeverReturns(cfg, s) {
      var p, cuts := HangOverfills(cfg, s);
    }
  }

  // ---- Finite listings

  /** Empty beginnings of the pages from the k-th cursor on. */
  function EmptyCuts(cfg: Config, all: seq<string>, k: nat): (cuts: seq<Cut>)
    requires k <= |all| && forall i :: 0 <= i < |all| ==> all[i] in cfg.server
    ensures |cuts| == |all| - k
    ensures forall i :: 0 <= i < |cuts| ==> cuts[i] == Cut(cfg.server[all[k + i]].repos, 0)
  {
    seq(|all| - k, i requires 0 <= i < |all| - k => Cut(cfg.server[all[k + i]].repos, 0))
  }

  lemma EmptyCutsWeigh(cuts: seq<Cut>, more: seq<Cut>, wt: Weight)
    requires forall c <- more :: c.n == 0
    ensures Tally(CutWeight(wt), cuts + more) == Tally(CutWeight(wt), cuts)
  {
    TallyConcat(CutWeight(wt), cuts, more);
    TallyEach(CutWeight(wt), more, 0);
  }

  lemma SelectionContinues(cfg: Config, p: seq<string>, all: seq<string>, cuts: seq<Cut>)
    requires Selected(cfg, p, cuts) && p <= all && Path(cfg, all) && Known(cfg, all)
    requires forall i :: 0 <= i < |all| ==> all[i] in cfg.server
    ensures Selected(cfg, all, cuts + EmptyCuts(cfg, all, |p|))
  {
    var cuts' := cuts + EmptyCuts(cfg, all, |p|);
    forall i | 0 <= i < |all| ensures cuts'[i].repos == cfg.server[all[i]].repos && cuts'[i].n <= |cuts'[i].repos| {
      if i < |p| {
        assert cuts'[i] == cuts[i] && p[i] == all[i];
      } else {
        assert cuts'[i] == EmptyCuts(cfg, all, |p|)[i - |p|];
      }
    }
  }

  /** A selection can be continued along the path by empty beginnings. */
  lemma SelectionExtends(cfg: Config, p: seq<string>, all: seq<string>, cuts: seq<Cut>) returns (cuts': seq<Cut>)
    requires Overfills(cfg, p, cuts) && p <= all && Path(cfg, all) && Known(cfg, all)
    ensures Overfills(cfg, all, cuts')
  {
    assert forall i :: 0 <= i < |all| ==> all[i] in all;
    var more := EmptyCuts(cfg, all, |p|);
    cuts' := cuts + more;
    SelectionContinues(cfg, p, all, cuts);
    EmptyCutsWeigh(cuts, more, TarPit);
    EmptyCutsWeigh(cuts, more, ItemYield);
  }

  lemma OverfillsAlong(cfg: Config, cursors: seq<string>)
    requires Finite(cfg, cursors)
    ensures (exists p, cuts :: Overfills(cfg, p, cuts))
       <==> (exists cuts :: Overfills(cfg, Answered(cfg, cursors), cuts))
  {
    if p, cuts :| Overfills(cfg, p, cuts) {
      var all := Answered(cfg, cursors);
      KnownPathsBegin(cfg, cursors, p);
      PathPrefix(cfg, cursors, |all|);
      assert cursors[..|all|] == all;
      var cuts' := SelectionExtends(cfg, p, all, cuts);
    }
  }

  /** If all fetches return, only the items count. */
  lemma OverfillsIff(cfg: Config)
    requires cfg.workers >= 1 && FetchesReturn(cfg)
    ensures (exists p, cuts :: Overfills(cfg, p, cuts)) <==> ListsMoreThan(cfg, Capacity(cfg))
  {
    if p, cuts :| Overfills(cfg, p, cuts) {
      WholePagesYieldMost(cfg, p, cuts);
    }
    if p :| Path(cfg, p) && Known(cfg, p) && |NestedItems(PagesAlong(cfg, p))| > Capacity(cfg) {
      var whole := WholePages(PagesAlong(cfg, p));
      WholePagesYieldMost(cfg, p, whole);
      CutsHaveNoTarPits(cfg, p, whole);
      assert Overfills(cfg, p, whole);
    }
  }

  /** Over a finite listing the beginnings to look at are those of its own pages; if all fetches return, it is a matter
      of counting the items. */
  lemma FiniteShutdownHangsIff(cfg: Config, cursors: seq<string>)
    requires cfg.workers >= 1 && Finite(cfg, cursors)
    ensures (exists s :: Reachable(cfg, s) && s.cancelled && NeverReturns(cfg, s))
       <==> (exists cuts :: Overfills(cfg, Answered(cfg, cursors), cuts))
    ensures FetchesReturn(cfg) ==>
              ((exists s :: Reachable(cfg, s) && s.cancelled && NeverReturns(cfg, s))
               <==> |NestedItems(PagesAlong(cfg, Answered(cfg, cursors)))| > 2 * cfg.workers)
  {
    ShutdownHangsIff(cfg);
    OverfillsAlong(cfg, cursors);
    if FetchesReturn(cfg) {
      OverfillsIff(cfg);
      ListsMoreThanIff(cfg, cursors, 2 * cfg.workers);
    }
  }
}
