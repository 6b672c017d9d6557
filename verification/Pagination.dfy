/** Following cursors: which pages a backfill lists, and when BackfillRepos returns. */
module Pagination {
  import opened Errors
  import opened Pipeline
  import opened PipelineLaws
  import opened PipelineResults

  // ---- Paths of cursors

  ghost predicate Names(cfg: Config, cursors: seq<string>, i: nat)
    requires i < |cursors| - 1
  {
    && cursors[i] in cfg.server
    && cfg.server[cursors[i]].cursor == Some(cursors[i + 1]) && cursors[i + 1] != ""
  }

  /** The cursors a listing follows: "" first, and each page names the next one. */
  ghost predicate Path(cfg: Config, cursors: seq<string>) {
    && cursors != [] && cursors[0] == ""
    && forall i :: 0 <= i < |cursors| - 1 ==> Names(cfg, cursors, i)
  }

  predicate NamesNone(page: Page) {
    page.cursor == None || page.cursor == Some("")
  }

  /** A listing that comes to an end: its last page names no other. */
  ghost predicate Chain(cfg: Config, cursors: seq<string>) {
    Path(cfg, cursors) && var last := cursors[|cursors| - 1]; last in cfg.server && NamesNone(cfg.server[last])
  }

  /** A listing that fails: it runs into a cursor the server does not know. */
  ghost predicate BrokenChain(cfg: Config, cursors: seq<string>) {
    Path(cfg, cursors) && cursors[|cursors| - 1] !in cfg.server
  }

  /** A finite listing, ending in either way. */
  ghost predicate Finite(cfg: Config, cursors: seq<string>) {
    Chain(cfg, cursors) || BrokenChain(cfg, cursors)
  }

  ghost predicate Known(cfg: Config, cursors: seq<string>) {
    forall c <- cursors :: c in cfg.server
  }

  function PagesAlong(cfg: Config, cursors: seq<string>): (pages: seq<seq<Option<Listing>>>)
    requires forall c <- cursors :: c in cfg.server
  {
    seq(|cursors|, i requires 0 <= i < |cursors| => cfg.server[cursors[i]].repos)
  }

  lemma ChainIsKnown(cfg: Config, cursors: seq<string>)
    requires Chain(cfg, cursors)
    ensures Known(cfg, cursors)
    ensures forall i :: 0 <= i < |cursors| ==> cursors[i] in cfg.server
  {
    forall i | 0 <= i < |cursors| ensures cursors[i] in cfg.server {
      assert i < |cursors| - 1 ==> Names(cfg, cursors, i);
    }
  }

  lemma PathPrefix(cfg: Config, cursors: seq<string>, k: nat)
    requires Path(cfg, cursors) && 0 < k <= |cursors|
    ensures Path(cfg, cursors[..k])
    ensures Known(cfg, cursors) ==> Known(cfg, cursors[..k])
  {
    assert forall c <- cursors[..k] :: c in cursors;
    forall i | 0 <= i < k - 1 ensures Names(cfg, cursors[..k], i) {
      assert Names(cfg, cursors, i);
    }
  }

  lemma PathKnown(cfg: Config, cursors: seq<string>)
    requires Path(cfg, cursors)
    ensures Known(cfg, cursors[..|cursors| - 1])
  {
    forall c <- cursors[..|cursors| - 1] ensures c in cfg.server {
      var i :| 0 <= i < |cursors| - 1 && cursors[i] == c;
      assert Names(cfg, cursors, i);
    }
  }

  /** The cursors of a finite listing that the server knows. */
  ghost function Answered(cfg: Config, cursors: seq<string>): (r: seq<string>)
    requires Finite(cfg, cursors)
    ensures Known(cfg, r)
  {
    if Chain(cfg, cursors) then ChainIsKnown(cfg, cursors); cursors
    else PathKnown(cfg, cursors); cursors[..|cursors| - 1]
  }

  /** All paths follow the same cursors. */
  lemma {:induction false} PathsAgree(cfg: Config, p: seq<string>, q: seq<string>, i: nat)
    requires Path(cfg, p) && Path(cfg, q) && i < |p| && i < |q|
    ensures p[i] == q[i]
  {
    if i == 0 {
    } else {
      PathsAgree(cfg, p, q, i - 1);
      assert Names(cfg, p, i - 1) && Names(cfg, q, i - 1);
    }
  }

  /** A path of known cursors is the beginning of the finite listing, if there is one. */
  lemma KnownPathsBegin(cfg: Config, cursors: seq<string>, p: seq<string>)
    requires Finite(cfg, cursors) && Path(cfg, p) && Known(cfg, p)
    ensures p <= Answered(cfg, cursors)
  {
    var n := |cursors|;
    forall i | 0 <= i < |p| && i < n ensures p[i] == cursors[i] { PathsAgree(cfg, p, cursors, i); }
    if |p| >= n {
      assert p[n - 1] in p;
      assert |p| > n ==> Names(cfg, p, n - 1);
    }
  }

  /** Some pages of the listing hold more than n items. */
  ghost predicate ListsMoreThan(cfg: Config, n: int) {
    exists p :: Path(cfg, p) && Known(cfg, p) && |NestedItems(PagesAlong(cfg, p))| > n
  }

  lemma NestedItemsLast(pages: seq<seq<Option<Listing>>>)
    requires pages != []
    ensures
      var n := |pages| - 1;
      NestedItems(pages) == NestedItems(pages[..n]) + ItemsOfJobs(PageJobs(n + 1, pages[n], 0))
  {
    var n := |pages| - 1;
    ItemsOfJobsConcat(NestedJobs(pages[..n]), PageJobs(n + 1, pages[n], 0));
  }

  lemma {:induction false} FewerPagesFewerItems(pages: seq<seq<Option<Listing>>>, k: nat)
    requires k <= |pages|
    ensures |NestedItems(pages[..k])| <= |NestedItems(pages)|
    decreases |pages|
  {
    if k < |pages| {
      NestedItemsLast(pages);
      FewerPagesFewerItems(pages[..|pages| - 1], k);
      assert pages[..|pages| - 1][..k] == pages[..k];
    } else {
      assert pages[..k] == pages;
    }
  }

  /** A finite listing holds more than n items if all its pages together do. */
  lemma ListsMoreThanIff(cfg: Config, cursors: seq<string>, n: nat)
    requires Finite(cfg, cursors)
    ensures ListsMoreThan(cfg, n) <==> |NestedItems(PagesAlong(cfg, Answered(cfg, cursors)))| > n
  {
    var all := Answered(cfg, cursors);
    if p :| Path(cfg, p) && Known(cfg, p) && |NestedItems(PagesAlong(cfg, p))| > n {
      KnownPathsBegin(cfg, cursors, p);
      assert PagesAlong(cfg, p) == PagesAlong(cfg, all)[..|p|];
      FewerPagesFewerItems(PagesAlong(cfg, all), |p|);
    }
    if all != [] {
      PathPrefix(cfg, cursors, |all|);
      assert cursors[..|all|] == all;
    }
  }

  // ---- A run lists the pages of a path

  /** The pages listed are those of the path so far, and the lister stands at its next cursor or has ended there. */
  ghost predicate ListedAlong(cfg: Config, cursors: seq<string>, s: State) {
    var n := |s.log.listed|;
    && n <= |cursors|
    && (forall i :: 0 <= i < n ==> cursors[i] in cfg.server && s.log.listed[i] == cfg.server[cursors[i]].repos)
    && match s.lister
       case AtPage(cursor, _) => n < |cursors| && cursor == cursors[n]
       case ListDone => n > 0 && NamesNone(cfg.server[cursors[n - 1]])
       case ListFailed => n < |cursors| && (s.cancelled || cursors[n] !in cfg.server)
  }

  lemma ListedAlongLister(cfg: Config, cursors: seq<string>, s: State, m: ListerMove) returns (cursors': seq<string>)
    requires Path(cfg, cursors) && ListedAlong(cfg, cursors, s) && ListerCan(cfg, s, m)
    ensures Path(cfg, cursors') && ListedAlong(cfg, cursors', ListerDo(cfg, s, m))
    ensures cursors <= cursors' && (Finite(cfg, cursors) ==> cursors' == cursors)
  {
    var n := |s.log.listed|;
    cursors' := cursors;
    if n + 1 < |cursors| {
      assert Names(cfg, cursors, n);
    } else if m.ListPage? && !NamesNone(cfg.server[cursors[n]]) {
      cursors' := cursors + [cfg.server[cursors[n]].cursor.value];
      forall i | 0 <= i < |cursors'| - 1 ensures Names(cfg, cursors', i) {
        assert i < n ==> Names(cfg, cursors, i);
      }
    }
  }

  ghost predicate SameListing(s: State, s': State) {
    s'.lister == s.lister && s'.log.listed == s.log.listed && (s.cancelled ==> s'.cancelled)
  }

  lemma ListedAlongOther(cfg: Config, cursors: seq<string>, s: State, step: Step)
    requires ListedAlong(cfg, cursors, s) && !step.ListerStep? && Enabled(cfg, s, step)
    ensures ListedAlong(cfg, cursors, Apply(cfg, s, step))
  {
    match step
    case SubmitterStep(i, m) => assert SameListing(s, SubmitterDo(cfg, s, i, m));
    case RepoStep(r, m) => assert SameListing(s, RepoDo(cfg, s, r, m));
    case IngestStep(g, m) => assert SameListing(s, IngestDo(cfg, s, g, m));
    case CollectorStep(m) => assert SameListing(s, CollectorDo(s, m));
    case ContextStep(m) => assert SameListing(s, ContextDo(s, m));
  }

  /** A page that names another one makes the path longer. */
  lemma ListedAlongStep(cfg: Config, cursors: seq<string>, s: State, step: Step) returns (cursors': seq<string>)
    requires Path(cfg, cursors) && ListedAlong(cfg, cursors, s) && Enabled(cfg, s, step)
    ensures Path(cfg, cursors') && ListedAlong(cfg, cursors', Apply(cfg, s, step))
    ensures cursors <= cursors' && (Finite(cfg, cursors) ==> cursors' == cursors)
  {
    match step
    case ListerStep(m) => cursors' := ListedAlongLister(cfg, cursors, s, m);
    case _ =>
      cursors' := cursors;
      ListedAlongOther(cfg, cursors, s, step);
  }

  lemma {:induction false} ListedAlongRun(cfg: Config, cursors: seq<string>, s: State, steps: seq<Step>)
    returns (cursors': seq<string>)
    requires Path(cfg, cursors) && ListedAlong(cfg, cursors, s) && Legal(cfg, s, steps)
    ensures Path(cfg, cursors') && ListedAlong(cfg, cursors', After(cfg, s, steps))
    ensures cursors <= cursors' && (Finite(cfg, cursors) ==> cursors' == cursors)
    decreases |steps|
  {
    cursors' := cursors;
    if steps == [] {
    } else {
      cursors' := ListedAlongStep(cfg, cursors, s, steps[0]);
      cursors' := ListedAlongRun(cfg, cursors', Apply(cfg, s, steps[0]), steps[1..]);
    }
  }

  /** Every reachable state has listed along some path. */
  lemma ReachableListed(cfg: Config, s: State) returns (cursors: seq<string>)
    requires Reachable(cfg, s)
    ensures Path(cfg, cursors) && ListedAlong(cfg, cursors, s)
  {
    var steps :| Legal(cfg, Init(cfg), steps) && After(cfg, Init(cfg), steps) == s;
    cursors := ListedAlongRun(cfg, [""], Init(cfg), steps);
  }

  /** Against a finite listing it is that one. */
  lemma ReachableListedAlong(cfg: Config, cursors: seq<string>, s: State)
    requires Finite(cfg, cursors) && Reachable(cfg, s)
    ensures ListedAlong(cfg, cursors, s)
  {
    var steps :| Legal(cfg, Init(cfg), steps) && After(cfg, Init(cfg), steps) == s;
    var _ := ListedAlongRun(cfg, cursors, Init(cfg), steps);
  }

  /** A finished listing has listed the whole chain. */
  lemma DoneListsAll(cfg: Config, cursors: seq<string>, s: State)
    requires Path(cfg, cursors) && ListedAlong(cfg, cursors, s) && s.lister.ListDone?
    ensures |s.log.listed| == |cursors| && Chain(cfg, cursors)
  {
    var n := |s.log.listed|;
    assert n < |cursors| ==> Names(cfg, cursors, n - 1);
  }

  /** Against a server whose cursors run through a finite listing, an uncancelled backfill at rest has listed every page
      once, offered every active repository once, and ingested exactly the items of the nested loop over the listing. */
  lemma PaginationComplete(cfg: Config, cursors: seq<string>, s: State)
    requires Chain(cfg, cursors) && Reachable(cfg, s) && !s.cancelled && Quiescent(s)
    ensures Known(cfg, cursors)
    ensures s.log.listed == PagesAlong(cfg, cursors)
    ensures multiset(s.log.accepted) == multiset(NestedJobs(PagesAlong(cfg, cursors)))
    ensures multiset(s.log.ingested) == multiset(NestedItems(PagesAlong(cfg, cursors)))
  {
    ChainIsKnown(cfg, cursors);
    ReachableListedAlong(cfg, cursors, s);
    DoneListsAll(cfg, cursors, s);
    assert s.log.listed == PagesAlong(cfg, cursors);
    RefinesNestedLoop(cfg, s);
  }

  /** The pages a reachable state has listed are those of a path of known cursors. */
  lemma ReachablePages(cfg: Config, s: State) returns (p: seq<string>)
    requires Reachable(cfg, s) && s.log.listed != []
    ensures Path(cfg, p) && Known(cfg, p) && s.log.listed == PagesAlong(cfg, p)
  {
    var cursors := ReachableListed(cfg, s);
    p := cursors[..|s.log.listed|];
    PathPrefix(cfg, cursors, |p|);
    assert forall i :: 0 <= i < |p| ==> p[i] in cfg.server;
  }

  // ---- Listing first

  /** All requests answered before anyone else moves: the first k pages of a path can be listed. */
  lemma {:induction false} ListFirst(cfg: Config, cursors: seq<string>, k: nat) returns (s: State)
    requires Path(cfg, cursors) && k <= |cursors| && Known(cfg, cursors[..k])
    ensures Reachable(cfg, s) && s.log.listed == PagesAlong(cfg, cursors[..k])
    ensures s == Init(cfg).(lister := s.lister, submitters := s.submitters,
                            log := Init(cfg).log.(listed := s.log.listed))
    ensures forall t <- s.submitters :: t.next == 0 && t.held.Nothing?
    ensures k < |cursors| ==> s.lister == AtPage(cursors[k], k + 1)
  {
    if k == 0 {
      s := Init(cfg);
      assert Legal(cfg, Init(cfg), []) && After(cfg, Init(cfg), []) == s;
    } else {
      assert cursors[..k][k - 1] == cursors[k - 1];
      assert forall c <- cursors[..k - 1] :: c in cursors[..k];
      var t := ListFirst(cfg, cursors, k - 1);
      s := Apply(cfg, t, ListerStep(ListPage));
      ReachableStep(cfg, t, ListerStep(ListPage));
      assert PagesAlong(cfg, cursors[..k]) == PagesAlong(cfg, cursors[..k - 1]) + [cfg.server[cursors[k - 1]].repos];
      assert k < |cursors| ==> Names(cfg, cursors, k - 1);
    }
  }

  // ---- BackfillRepos' own return

  /** BackfillRepos returns when listing fails, or when every goroutine of its group is done, the collector's
      included. */
  ghost predicate BackfillReturned(s: State) {
    || s.lister.ListFailed?
    || (s.lister.ListDone? && (forall t <- s.submitters :: SubmitterDone(t)) && s.collector.CollectorGone?)
  }

  lemma ReturnedMeansBroken(cfg: Config, s: State) returns (cursors: seq<string>)
    requires Reachable(cfg, s) && !s.cancelled && BackfillReturned(s)
    ensures s.lister.ListFailed? && BrokenChain(cfg, cursors)
  {
    ReachableInv(cfg, s);
    var path := ReachableListed(cfg, s);
    cursors := path[..|s.log.listed| + 1];
    PathPrefix(cfg, path, |cursors|);
  }

  lemma BrokenCanReturn(cfg: Config, cursors: seq<string>) returns (s: State)
    requires BrokenChain(cfg, cursors)
    ensures Reachable(cfg, s) && !s.cancelled && BackfillReturned(s)
  {
    PathKnown(cfg, cursors);
    var t := ListFirst(cfg, cursors, |cursors| - 1);
    s := Apply(cfg, t, ListerStep(ListFail));
    ReachableStep(cfg, t, ListerStep(ListFail));
  }

  /** Nothing closes the results channel: an uncancelled BackfillRepos can return exactly when the cursors followed
      from "" run into one the server does not know, and then it returns with the listing error. */
  lemma BackfillReturnsIff(cfg: Config)
    ensures (exists s :: Reachable(cfg, s) && !s.cancelled && BackfillReturned(s))
       <==> (exists cursors :: BrokenChain(cfg, cursors))
    ensures forall s :: Reachable(cfg, s) && !s.cancelled && BackfillReturned(s) ==> s.lister.ListFailed?
  {
    forall s | Reachable(cfg, s) && !s.cancelled && BackfillReturned(s)
      ensures s.lister.ListFailed? && exists cursors :: BrokenChain(cfg, cursors)
    {
      var cursors := ReturnedMeansBroken(cfg, s);
    }
    if cursors :| BrokenChain(cfg, cursors) {
      var s := BrokenCanReturn(cfg, cursors);
    }
  }

  /** So over a finite listing, an uncancelled backfill at rest has returned if the listing failed, and never will
      if it did not. */
  lemma ReturnedAtRestIff(cfg: Config, cursors: seq<string>, s: State)
    requires Finite(cfg, cursors) && Reachable(cfg, s) && !s.cancelled && Quiescent(s)
    ensures BackfillReturned(s) <==> BrokenChain(cfg, cursors)
  {
    ReachableListedAlong(cfg, cursors, s);
    if s.lister.ListDone? {
      DoneListsAll(cfg, cursors, s);
    } else {
      if Chain(cfg, cursors) { ChainIsKnown(cfg, cursors); }
    }
  }
}
