/** Ingesting the same writes again and again, in any order, drives the graph to one fixed point. */
module Replay {
  import opened Errors
  import opened ProfileGraph

  function Writes(h: seq<Event>): (ws: seq<Write>)
    ensures |ws| == |h|
    ensures forall i :: 0 <= i < |h| ==> ws[i] == h[i].write
  {
    seq(|h|, i requires 0 <= i < |h| => h[i].write)
  }

  /** A pass ingests the writes of L in some order. */
  ghost predicate IsPass(h: seq<Event>, l: seq<Write>) {
    multiset(Writes(h)) == multiset(l)
  }

  function RunAll(g: Graph, passes: seq<seq<Event>>): Graph {
    if passes == [] then g else Run(RunAll(g, passes[..|passes| - 1]), passes[|passes| - 1])
  }

  ghost predicate SameShape(g: Graph, g': Graph) {
    g.nodes.Keys == g'.nodes.Keys && g.edges == g'.edges
  }

  /** The write has left its mark. */
  predicate Done(g: Graph, w: Write) {
    Valid(w) ==>
      match w
      case WriteProfile(id, _, _, _) => id in g.nodes
      case WriteFollow(source, target, _, _, _) => source in g.nodes && target in g.nodes && EdgeOf(w) in g.edges
  }

  /** The write is done, or it is a follow whose source is not there. */
  predicate Inert(g: Graph, w: Write) {
    Done(g, w) || (w.WriteFollow? && w.source !in g.nodes)
  }

  /** No write of L can add a node or an edge any more. */
  ghost predicate Fixed(g: Graph, l: seq<Write>) {
    forall w <- l :: Inert(g, w)
  }

  lemma InertIsNoOp(g: Graph, w: Write, now: int)
    ensures Inert(g, w) <==> SameShape(g, ApplyWrite(g, w, now))
    ensures !Inert(g, w) ==> Done(ApplyWrite(g, w, now), w)
  {
  }

  lemma {:induction false} FixedStays(g: Graph, l: seq<Write>, h: seq<Event>)
    requires Fixed(g, l) && forall e <- h :: e.write in l
    ensures SameShape(g, Run(g, h)) && Fixed(Run(g, h), l)
  {
    if h == [] {
    } else {
      var t := h[..|h| - 1];
      assert forall e <- t :: e in h;
      FixedStays(g, l, t);
      assert h[|h| - 1] in h;
      InertIsNoOp(Run(g, t), h[|h| - 1].write, h[|h| - 1].now);
      forall w <- l ensures Inert(Run(g, h), w) {
        assert Inert(Run(g, t), w);
      }
    }
  }

  lemma {:induction false} DoneStays(g: Graph, h: seq<Event>, w: Write)
    requires Done(g, w)
    ensures Done(Run(g, h), w)
  {
    BirthIsForever(g, h);
  }

  /** If a run adds nothing, each of its writes is inert. */
  lemma {:induction false} UnchangedMeansInert(g: Graph, h: seq<Event>)
    requires SameShape(g, Run(g, h))
    ensures forall e <- h :: Inert(g, e.write)
  {
    if h == [] {
    } else {
      var t := h[..|h| - 1];
      var last := h[|h| - 1];
      BirthIsForever(g, t);
      BirthIsForever(Run(g, t), [last]);
      assert [last][..0] == [];
      assert SameShape(g, Run(g, t));
      UnchangedMeansInert(g, t);
      InertIsNoOp(Run(g, t), last.write, last.now);
      forall e <- h ensures Inert(g, e.write) {
        if e !in t { assert h == t + [last]; }
      }
    }
  }

  /** If a run adds something, one of its writes was not done and now is. */
  lemma {:induction false} ChangedMeansProgress(g: Graph, h: seq<Event>) returns (w: Write)
    requires !SameShape(g, Run(g, h))
    ensures w in Writes(h) && !Done(g, w) && Done(Run(g, h), w)
  {
    var t := h[..|h| - 1];
    var last := h[|h| - 1];
    if SameShape(g, Run(g, t)) {
      w := last.write;
      assert Writes(h)[|h| - 1] == w;
      InertIsNoOp(Run(g, t), w, last.now);
    } else {
      w := ChangedMeansProgress(g, t);
      var i :| 0 <= i < |t| && Writes(t)[i] == w;
      assert Writes(h)[i] == w;
      DoneStays(Run(g, t), [last], w);
      assert [last][..0] == [];
    }
  }

  function DoneCount(g: Graph, l: seq<Write>): (n: nat)
    ensures n <= |l|
    ensures n == |l| ==> forall w <- l :: Done(g, w)
  {
    if l == [] then 0 else (if Done(g, l[0]) then 1 else 0) + DoneCount(g, l[1..])
  }

  lemma {:induction false} DoneCountGrows(g: Graph, g': Graph, l: seq<Write>, w: Write)
    requires forall v <- l :: Done(g, v) ==> Done(g', v)
    ensures DoneCount(g, l) <= DoneCount(g', l)
    ensures w in l && !Done(g, w) && Done(g', w) ==> DoneCount(g, l) < DoneCount(g', l)
  {
    if l == [] {
    } else {
      assert forall v <- l[1..] :: v in l;
      DoneCountGrows(g, g', l[1..], w);
    }
  }

  lemma SameMembers<T>(a: seq<T>, b: seq<T>)
    requires multiset(a) == multiset(b)
    ensures |a| == |b|
    ensures forall x :: x in a <==> x in b
  {
    assert |multiset(a)| == |multiset(b)|;
    forall x ensures x in a <==> x in b {
      assert x in multiset(a) <==> x in multiset(b);
    }
  }

  /** One more pass either adds a newly done write or finds the graph fixed. */
  lemma PassProgress(g: Graph, h: seq<Event>, l: seq<Write>)
    requires IsPass(h, l)
    ensures Fixed(g, l) || DoneCount(Run(g, h), l) > DoneCount(g, l)
  {
    SameMembers(Writes(h), l);
    if SameShape(g, Run(g, h)) {
      UnchangedMeansInert(g, h);
      forall w <- l ensures Inert(g, w) {
        var i :| 0 <= i < |h| && Writes(h)[i] == w;
        assert h[i] in h;
      }
    } else {
      var w := ChangedMeansProgress(g, h);
      forall v <- l ensures Done(g, v) ==> Done(Run(g, h), v) {
        if Done(g, v) { DoneStays(g, h, v); }
      }
      DoneCountGrows(g, Run(g, h), l, w);
    }
  }

  lemma PassWrites(h: seq<Event>, l: seq<Write>)
    requires IsPass(h, l)
    ensures forall e <- h :: e.write in l
  {
    SameMembers(Writes(h), l);
    forall e <- h ensures e.write in l {
      var i :| 0 <= i < |h| && h[i] == e;
      assert Writes(h)[i] == e.write;
    }
  }

  lemma {:induction false} PassesProgress(g: Graph, passes: seq<seq<Event>>, l: seq<Write>)
    requires forall h <- passes :: IsPass(h, l)
    ensures Fixed(RunAll(g, passes), l) || DoneCount(RunAll(g, passes), l) >= |passes|
  {
    if passes == [] {
    } else {
      var t := passes[..|passes| - 1];
      var h := passes[|passes| - 1];
      assert forall p <- t :: p in passes;
      PassesProgress(g, t, l);
      assert h in passes;
      var g1 := RunAll(g, t);
      PassProgress(g1, h, l);
      if Fixed(g1, l) {
        PassWrites(h, l);
        FixedStays(g1, l, h);
      }
    }
  }

  /** As many passes as there are writes are enough, whatever order each pass ingests them in. */
  lemma ReplayConverges(g: Graph, passes: seq<seq<Event>>, l: seq<Write>)
    requires forall h <- passes :: IsPass(h, l)
    requires |passes| >= |l|
    ensures Fixed(RunAll(g, passes), l)
    ensures forall h: seq<Event> | IsPass(h, l) :: SameShape(RunAll(g, passes), Run(RunAll(g, passes), h))
  {
    PassesProgress(g, passes, l);
    var g1 := RunAll(g, passes);
    assert Fixed(g1, l);
    forall h: seq<Event> | IsPass(h, l) ensures SameShape(g1, Run(g1, h)) {
      PassWrites(h, l);
      FixedStays(g1, l, h);
    }
  }

  // ---- The fixed point: closure of the start and profile ids under the follows

  ghost predicate Follows(l: seq<Write>, a: string, b: string) {
    exists w <- l :: w.WriteFollow? && Valid(w) && w.source == a && w.target == b
  }

  ghost predicate Seed(g: Graph, l: seq<Write>, id: string) {
    id in g.nodes || exists w <- l :: ProfileOf(w, id)
  }

  ghost predicate IsPath(g: Graph, l: seq<Write>, p: seq<string>) {
    && p != [] && Seed(g, l, p[0])
    && forall i :: 0 <= i < |p| - 1 ==> Follows(l, p[i], p[i + 1])
  }

  ghost predicate InClosure(g: Graph, l: seq<Write>, id: string) {
    exists p :: IsPath(g, l, p) && p[|p| - 1] == id
  }

  ghost predicate EdgeInClosure(g: Graph, l: seq<Write>, e: Edge) {
    || e in g.edges
    || exists w <- l :: w.WriteFollow? && Valid(w) && EdgeOf(w) == e && InClosure(g, l, w.source)
  }

  lemma SeedInClosure(g: Graph, l: seq<Write>, id: string)
    requires Seed(g, l, id)
    ensures InClosure(g, l, id)
  {
    assert IsPath(g, l, [id]);
  }

  lemma FollowInClosure(g: Graph, l: seq<Write>, a: string, b: string)
    requires InClosure(g, l, a) && Follows(l, a, b)
    ensures InClosure(g, l, b)
  {
    var p :| IsPath(g, l, p) && p[|p| - 1] == a;
    assert IsPath(g, l, p + [b]);
  }

  /** Nothing outside the closure is ever created. */
  lemma {:induction false} OnlyClosure(g0: Graph, g: Graph, l: seq<Write>, h: seq<Event>)
    requires forall e <- h :: e.write in l
    requires forall id <- g.nodes :: InClosure(g0, l, id)
    requires forall e <- g.edges :: EdgeInClosure(g0, l, e)
    ensures forall id <- Run(g, h).nodes :: InClosure(g0, l, id)
    ensures forall e <- Run(g, h).edges :: EdgeInClosure(g0, l, e)
  {
    if h == [] {
    } else {
      var t := h[..|h| - 1];
      assert forall e <- t :: e in h;
      OnlyClosure(g0, g, l, t);
      var g1 := Run(g, t);
      var w := h[|h| - 1].write;
      assert h[|h| - 1] in h;
      if Valid(w) {
        if w.WriteProfile? {
          assert ProfileOf(w, w.id);
          SeedInClosure(g0, l, w.id);
        } else if w.source in g1.nodes {
          assert Follows(l, w.source, w.target);
          FollowInClosure(g0, l, w.source, w.target);
          assert EdgeInClosure(g0, l, EdgeOf(w));
        }
      }
    }
  }

  lemma {:induction false} OnlyClosureAll(g: Graph, passes: seq<seq<Event>>, l: seq<Write>)
    requires forall h <- passes :: IsPass(h, l)
    ensures forall id <- RunAll(g, passes).nodes :: InClosure(g, l, id)
    ensures forall e <- RunAll(g, passes).edges :: EdgeInClosure(g, l, e)
    ensures g.nodes.Keys <= RunAll(g, passes).nodes.Keys && g.edges <= RunAll(g, passes).edges
  {
    if passes == [] {
      forall id <- g.nodes ensures InClosure(g, l, id) { SeedInClosure(g, l, id); }
    } else {
      var t := passes[..|passes| - 1];
      var h := passes[|passes| - 1];
      assert forall p <- t :: p in passes;
      OnlyClosureAll(g, t, l);
      assert h in passes;
      PassWrites(h, l);
      OnlyClosure(g, RunAll(g, t), l, h);
      BirthIsForever(RunAll(g, t), h);
    }
  }

  /** A fixed graph holds the whole closure. */
  lemma {:induction false} FixedHoldsPath(g0: Graph, g: Graph, l: seq<Write>, p: seq<string>)
    requires Fixed(g, l) && g0.nodes.Keys <= g.nodes.Keys && IsPath(g0, l, p)
    ensures p[|p| - 1] in g.nodes
  {
    if |p| <= 1 {
    } else {
      var q := p[..|p| - 1];
      forall i | 0 <= i < |q| - 1 ensures Follows(l, q[i], q[i + 1]) {
        assert Follows(l, p[i], p[i + 1]);
      }
      FixedHoldsPath(g0, g, l, q);
      assert Follows(l, p[|p| - 2], p[|p| - 2 + 1]);
    }
  }

  /** The fixed point, in closed form: its ids are the start and profile ids closed under the follows of L, its edges
      the start edges and every follow of L whose source is among those ids. */
  lemma FixedPointIsClosure(g: Graph, passes: seq<seq<Event>>, l: seq<Write>)
    requires forall h <- passes :: IsPass(h, l)
    requires Fixed(RunAll(g, passes), l)
    ensures forall id :: id in RunAll(g, passes).nodes <==> InClosure(g, l, id)
    ensures forall e :: e in RunAll(g, passes).edges <==> EdgeInClosure(g, l, e)
  {
    var g1 := RunAll(g, passes);
    OnlyClosureAll(g, passes, l);
    forall id | InClosure(g, l, id) ensures id in g1.nodes {
      var p :| IsPath(g, l, p) && p[|p| - 1] == id;
      FixedHoldsPath(g, g1, l, p);
    }
    forall e | EdgeInClosure(g, l, e) ensures e in g1.edges {
      if e !in g.edges {
        var w :| w in l && w.WriteFollow? && Valid(w) && EdgeOf(w) == e && InClosure(g, l, w.source);
        assert Inert(g1, w);
      }
    }
  }

  lemma ClosureSeesMembersOnly(g: Graph, l: seq<Write>, l': seq<Write>)
    requires forall w :: w in l <==> w in l'
    ensures forall id :: InClosure(g, l, id) <==> InClosure(g, l', id)
    ensures forall e :: EdgeInClosure(g, l, e) <==> EdgeInClosure(g, l', e)
  {
    forall a, b ensures Follows(l, a, b) <==> Follows(l', a, b) {}
    forall id ensures Seed(g, l, id) <==> Seed(g, l', id) {}
    forall p ensures IsPath(g, l, p) <==> IsPath(g, l', p) {}
  }

  /** Two replays of the same writes, in any orders and with any clocks, end with the same ids and edges. */
  lemma ReplayOrderIrrelevant(g: Graph, p: seq<seq<Event>>, q: seq<seq<Event>>, l: seq<Write>, l': seq<Write>)
    requires multiset(l) == multiset(l')
    requires (forall h <- p :: IsPass(h, l)) && |p| >= |l|
    requires (forall h <- q :: IsPass(h, l')) && |q| >= |l'|
    ensures SameShape(RunAll(g, p), RunAll(g, q))
  {
    SameMembers(l, l');
    ReplayConverges(g, p, l);
    ReplayConverges(g, q, l');
    FixedPointIsClosure(g, p, l);
    FixedPointIsClosure(g, q, l');
    ClosureSeesMembersOnly(g, l, l');
  }

  // ---- When one pass is enough

  /** After one pass the profiles of L are there. */
  lemma ProfilesAreThere(g: Graph, h: seq<Event>, w: Write, id: string)
    requires w in Writes(h) && ProfileOf(w, id)
    ensures id in Run(g, h).nodes
  {
    var i :| 0 <= i < |h| && Writes(h)[i] == w;
    assert h == h[..i + 1] + h[i + 1..];
    RunConcat(g, h[..i + 1], h[i + 1..]);
    BirthIsForever(Run(g, h[..i + 1]), h[i + 1..]);
  }

  ghost predicate SourceBefore(g: Graph, h: seq<Event>, i: nat)
    requires i < |h| && h[i].write.WriteFollow?
  {
    || h[i].write.source in g.nodes
    || exists j :: 0 <= j < i && ProfileOf(h[j].write, h[i].write.source)
  }

  ghost predicate SourcesFirst(g: Graph, h: seq<Event>) {
    forall i :: 0 <= i < |h| && h[i].write.WriteFollow? && Valid(h[i].write) ==>
      SourceBefore(g, h, i)
  }

  lemma {:induction false} AllDone(g: Graph, h: seq<Event>, n: nat)
    requires SourcesFirst(g, h) && n <= |h|
    ensures forall i :: 0 <= i < n ==> Done(Run(g, h[..n]), h[i].write)
  {
    if n == 0 {
    } else {
      AllDone(g, h, n - 1);
      var e := h[n - 1];
      var g1 := Run(g, h[..n - 1]);
      assert h[..n][..n - 1] == h[..n - 1];
      BirthIsForever(g, h[..n - 1]);
      forall i | 0 <= i < n ensures Done(Run(g, h[..n]), h[i].write) {
        if i < n - 1 {
          DoneStays(g1, [e], h[i].write);
          assert [e][..0] == [];
        } else if e.write.WriteFollow? && Valid(e.write) {
          assert SourceBefore(g, h, n - 1);
          if j :| 0 <= j < n - 1 && ProfileOf(h[j].write, e.write.source) {
            assert Done(g1, h[j].write);
          }
        }
      }
    }
  }

  /** If every follow comes after its source's profile, one pass reaches the fixed point. */
  lemma OnePassSuffices(g: Graph, h: seq<Event>)
    requires SourcesFirst(g, h)
    ensures Fixed(Run(g, h), Writes(h))
  {
    AllDone(g, h, |h|);
    assert h[..|h|] == h;
    forall w <- Writes(h) ensures Done(Run(g, h), w) {
      var i :| 0 <= i < |h| && Writes(h)[i] == w;
      assert Done(Run(g, h[..|h|]), h[i].write);
    }
  }

  /** After the first n writes a node with this id is there: at the start, by its profile, or by a follow from one that
      was there. */
  predicate Present(g: Graph, h: seq<Event>, n: nat, id: string)
    requires n <= |h|
  {
    if n == 0 then id in g.nodes
    else
      var w := h[n - 1].write;
      || Present(g, h, n - 1, id)
      || ProfileOf(w, id)
      || (w.WriteFollow? && Valid(w) && w.target == id && Present(g, h, n - 1, w.source))
  }

  /** Write j is a follow that comes after its source and makes this edge. */
  predicate MakesEdge(g: Graph, h: seq<Event>, j: nat, e: Edge)
    requires j < |h|
  {
    var w := h[j].write;
    w.WriteFollow? && Valid(w) && EdgeOf(w) == e && Present(g, h, j, w.source)
  }

  ghost predicate EdgeInTime(g: Graph, h: seq<Event>, n: nat, e: Edge)
    requires n <= |h|
  {
    e in g.edges || exists j :: 0 <= j < n && MakesEdge(g, h, j, e)
  }

  lemma {:induction false} PresentIsNode(g: Graph, h: seq<Event>, n: nat, id: string)
    requires n <= |h|
    ensures Present(g, h, n, id) <==> id in Run(g, h[..n]).nodes
  {
    if n == 0 {
    } else {
      assert h[..n][..n - 1] == h[..n - 1];
      PresentIsNode(g, h, n - 1, id);
      if h[n - 1].write.WriteFollow? { PresentIsNode(g, h, n - 1, h[n - 1].write.source); }
    }
  }

  lemma {:induction false} InTimeIsEdge(g: Graph, h: seq<Event>, n: nat, e: Edge)
    requires n <= |h|
    ensures EdgeInTime(g, h, n, e) <==> e in Run(g, h[..n]).edges
  {
    if n == 0 {
    } else {
      assert h[..n][..n - 1] == h[..n - 1];
      InTimeIsEdge(g, h, n - 1, e);
      if h[n - 1].write.WriteFollow? { PresentIsNode(g, h, n - 1, h[n - 1].write.source); }
      assert EdgeInTime(g, h, n, e) <==> EdgeInTime(g, h, n - 1, e) || MakesEdge(g, h, n - 1, e);
    }
  }

  /** Each follow whose source is there at the end has come after its source, itself or in a repetition. */
  ghost predicate FollowsInTime(g: Graph, h: seq<Event>) {
    forall w <- Writes(h) ::
      w.WriteFollow? && Valid(w) && Present(g, h, |h|, w.source) ==> EdgeInTime(g, h, |h|, EdgeOf(w))
  }

  /** Exactly then one pass is enough. */
  lemma OnePassSufficesIff(g: Graph, h: seq<Event>)
    requires EdgesAnchored(g)
    ensures Fixed(Run(g, h), Writes(h)) <==> FollowsInTime(g, h)
  {
    assert h[..|h|] == h;
    EdgesStayAnchored(g, h);
    forall w <- Writes(h)
      ensures Inert(Run(g, h), w)
         <==> (w.WriteFollow? && Valid(w) && Present(g, h, |h|, w.source) ==> EdgeInTime(g, h, |h|, EdgeOf(w)))
    {
      if w.WriteProfile? {
        if Valid(w) { ProfilesAreThere(g, h, w, w.id); }
      } else if Valid(w) {
        PresentIsNode(g, h, |h|, w.source);
        InTimeIsEdge(g, h, |h|, EdgeOf(w));
      }
    }
  }

  // ---- Properties: the second pass sets them

  /** Everything but the `updated` time stamp. */
  ghost predicate SameButUpdated(g: Graph, g': Graph) {
    && SameShape(g, g')
    && forall id <- g.nodes :: g.nodes[id].birth == g'.nodes[id].birth && g.nodes[id].sync == g'.nodes[id].sync
  }

  /** The sync properties that a list of writes leaves on a node it finds with `before`. */
  function LastSync(l: seq<Write>, id: string, before: Option<Sync>): Option<Sync> {
    if l == [] then before
    else if ProfileOf(l[|l| - 1], id) then Some(l[|l| - 1].sync)
    else LastSync(l[..|l| - 1], id, before)
  }

  lemma {:induction false} RunOnNode(g: Graph, h: seq<Event>, id: string)
    requires id in g.nodes
    ensures id in Run(g, h).nodes
    ensures Run(g, h).nodes[id].sync == LastSync(Writes(h), id, g.nodes[id].sync)
  {
    if h == [] {
    } else {
      var t := h[..|h| - 1];
      RunOnNode(g, t, id);
      assert Writes(h)[..|h| - 1] == Writes(t);
      ApplyOnNode(Run(g, t), h[|h| - 1], id);
    }
  }

  lemma {:induction false} NoProfileNoSync(l: seq<Write>, id: string, before: Option<Sync>)
    requires forall w <- l :: !ProfileOf(w, id)
    ensures LastSync(l, id, before) == before
  {
    if l == [] {
    } else {
      assert l[|l| - 1] in l;
      assert forall w <- l[..|l| - 1] :: w in l;
      NoProfileNoSync(l[..|l| - 1], id, before);
    }
  }

  lemma {:induction false} LastSyncIdempotent(l: seq<Write>, id: string, before: Option<Sync>)
    ensures LastSync(l, id, LastSync(l, id, before)) == LastSync(l, id, before)
  {
    if l == [] {
    } else {
      LastSyncIdempotent(l[..|l| - 1], id, before);
    }
  }

  /** From the second pass on, a node with a profile in L has the properties of its last profile in L. */
  lemma LastPassSyncs(g: Graph, passes: seq<seq<Event>>, l: seq<Write>, w: Write, id: string)
    requires |passes| >= 2 && (forall h <- passes :: Writes(h) == l) && w in l && ProfileOf(w, id)
    ensures id in RunAll(g, passes).nodes
    ensures var sync := RunAll(g, passes).nodes[id].sync; LastSync(l, id, sync) == sync
  {
    var n := |passes|;
    var t := passes[..n - 1];
    assert passes[n - 1] in passes && passes[n - 2] in passes && t[n - 2] == passes[n - 2];
    ProfilesAreThere(RunAll(g, t[..n - 2]), t[n - 2], w, id);
    var g0 := RunAll(g, t);
    RunOnNode(g0, passes[n - 1], id);
    LastSyncIdempotent(l, id, g0.nodes[id].sync);
  }

  /** Replaying a list L in its own order |L| times, but at least twice, reaches a graph that further replays change
      in nothing but `updated`. */
  lemma ReplayFixesProperties(g: Graph, passes: seq<seq<Event>>, l: seq<Write>, again: seq<Event>)
    requires forall h <- passes :: Writes(h) == l
    requires Writes(again) == l && |passes| >= |l| && |passes| >= 2
    ensures SameButUpdated(RunAll(g, passes), Run(RunAll(g, passes), again))
  {
    ReplayConverges(g, passes, l);
    var g1 := RunAll(g, passes);
    PassWrites(again, l);
    FixedStays(g1, l, again);
    BirthIsForever(g1, again);
    forall id <- g1.nodes ensures Run(g1, again).nodes[id].sync == g1.nodes[id].sync {
      RunOnNode(g1, again, id);
      if w :| w in l && ProfileOf(w, id) {
        LastPassSyncs(g, passes, l, w, id);
      } else {
        NoProfileNoSync(l, id, g1.nodes[id].sync);
      }
    }
  }

  /** One pass is never enough for the properties: a profile ingested once has no handle yet. */
  lemma OnePassTooFewForProperties(w: Write, now: int, later: int)
    requires w.WriteProfile? && Valid(w)
    ensures
      var once := RunAll(EMPTY, [[Event(w, now)]]);
      && Fixed(once, [w])
      && !SameButUpdated(once, Run(once, [Event(w, later)]))
  {
    var h := [Event(w, now)];
    assert h[..0] == [] && [Event(w, later)][..0] == [];
    var passes := [h];
    assert passes[..0] == [];
    var once := RunAll(EMPTY, passes);
    assert once == Run(EMPTY, h) == ApplyWrite(EMPTY, w, now);
    assert w.id in once.nodes && once.nodes[w.id].sync.None?;
  }

  // ---- The bound |L| is tight for every length

  function Name(i: nat): (s: string)
    ensures |s| == i + 1
  {
    if i == 0 then "a" else Name(i - 1) + "a"
  }

  /** A chain of n - 1 follows, the far end first and the profile it starts from last. */
  function SlowWrite(n: nat, j: nat): Write
    requires j < n
  {
    if j == n - 1 then WriteProfile(Name(0), "", Some(0), Sync("", "", "", 0))
    else WriteFollow(Name(n - 2 - j), Name(n - 1 - j), Some(0), "", 0)
  }

  function SlowList(n: nat): (l: seq<Write>)
    ensures |l| == n
  {
    seq(n, j requires 0 <= j < n => SlowWrite(n, j))
  }

  function SlowPass(n: nat): (h: seq<Event>)
    ensures |h| == n && Writes(h) == SlowList(n)
  {
    seq(n, j requires 0 <= j < n => Event(SlowWrite(n, j), 0))
  }

  function Times<T>(k: nat, x: T): (s: seq<T>)
    ensures |s| == k && forall y <- s :: y == x
  {
    seq(k, _ => x)
  }

  /** Of the names, the first m have nodes. */
  ghost predicate FirstNames(g: Graph, m: nat) {
    forall i: nat :: Name(i) in g.nodes <==> i < m
  }

  lemma NamesDiffer(i: nat, j: nat)
    ensures Name(i) == Name(j) <==> i == j
  {
  }

  /** A pass over the chain gets one name further, at the follow from the last name that is there. */
  lemma {:induction false} SlowPrefix(g: Graph, n: nat, m: nat, i: nat)
    requires FirstNames(g, m) && m < n && i < n
    ensures FirstNames(Run(g, SlowPass(n)[..i]), if i >= n - m then m + 1 else m)
  {
    var h := SlowPass(n)[..i];
    if i == 0 {
    } else {
      SlowPrefix(g, n, m, i - 1);
      assert h[..i - 1] == SlowPass(n)[..i - 1] && h[i - 1].write == SlowWrite(n, i - 1);
      forall k: nat ensures Name(k) == Name(n - i) <==> k == n - i { NamesDiffer(k, n - i); }
    }
  }

  lemma SlowPassAddsOne(g: Graph, n: nat, m: nat)
    requires FirstNames(g, m) && m < n
    ensures FirstNames(Run(g, SlowPass(n)), m + 1)
  {
    var h := SlowPass(n);
    SlowPrefix(g, n, m, n - 1);
    assert h[n - 1].write == SlowWrite(n, n - 1);
    forall k: nat ensures Name(k) == Name(0) <==> k == 0 { NamesDiffer(k, 0); }
  }

  lemma {:induction false} SlowPasses(n: nat, k: nat)
    requires k <= n
    ensures FirstNames(RunAll(EMPTY, Times(k, SlowPass(n))), k)
  {
    if k == 0 {
    } else {
      SlowPasses(n, k - 1);
      assert Times(k, SlowPass(n))[..k - 1] == Times(k - 1, SlowPass(n));
      SlowPassAddsOne(RunAll(EMPTY, Times(k - 1, SlowPass(n))), n, k - 1);
    }
  }

  /** For every length n there is a list whose replays reach the fixed point with the n-th pass and no earlier. */
  lemma ReplayBoundTight(n: nat, k: nat)
    requires n > 0
    ensures Fixed(RunAll(EMPTY, Times(k, SlowPass(n))), SlowList(n)) <==> k >= n
    ensures k < n ==>
      var g := RunAll(EMPTY, Times(k, SlowPass(n))); !SameButUpdated(g, Run(g, SlowPass(n)))
  {
    var g := RunAll(EMPTY, Times(k, SlowPass(n)));
    if k >= n {
      ReplayConverges(EMPTY, Times(k, SlowPass(n)), SlowList(n));
    } else {
      SlowPasses(n, k);
      var j := n - 1 - k;
      assert SlowList(n)[j] == SlowWrite(n, j) == SlowPass(n)[j].write;
      assert SlowPass(n)[j] in SlowPass(n);
      assert !Inert(g, SlowWrite(n, j));
      if SameShape(g, Run(g, SlowPass(n))) { UnchangedMeansInert(g, SlowPass(n)); }
    }
  }
}
