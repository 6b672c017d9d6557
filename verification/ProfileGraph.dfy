/** The graph that the Cypher write transactions build: Profile nodes keyed by id, FOLLOWS edges. */
module ProfileGraph {
  import opened Errors

  /** p.type, p.created and p.ingested: set together, ON CREATE only. */
  datatype Birth = Birth(typeId: string, created: int, ingested: int)

  /** p.handle, p.rev, p.sig and p.version: set together, ON MATCH only. */
  datatype Sync = Sync(handle: string, rev: string, sig: string, version: int)

  datatype Node = Node(birth: Option<Birth>, sync: Option<Sync>, updated: Option<int>)

  /** A FOLLOWS relationship is merged on its end points and all three of its properties. */
  datatype Edge = Edge(source: string, target: string, created: int, rev: string, version: int)

  datatype Graph = Graph(nodes: map<string, Node>, edges: set<Edge>)

  const EMPTY := Graph(map[], {})
  const BARE := Node(None, None, None)

  /** One write transaction. `created` is in Unix seconds, None when datetimeMust rejects it. */
  datatype Write =
    | WriteProfile(id: string, typeId: string, created: Option<int>, sync: Sync)
    | WriteFollow(source: string, target: string, created: Option<int>, rev: string, version: int)

  /** neo4j wants milliseconds. */
  function Millis(seconds: int): int { seconds * 1000 }

  predicate Valid(w: Write) { w.created.Some? }

  predicate ProfileOf(w: Write, id: string) {
    w.WriteProfile? && Valid(w) && w.id == id
  }

  function EdgeOf(w: Write): Edge
    requires w.WriteFollow? && Valid(w)
  {
    Edge(w.source, w.target, Millis(w.created.value), w.rev, w.version)
  }

  function ApplyWrite(g: Graph, w: Write, now: int): Graph {
    if !Valid(w) then g
    else match w
      case WriteProfile(id, typeId, created, sync) =>
        if id in g.nodes
        then g.(nodes := g.nodes[id := g.nodes[id].(sync := Some(sync), updated := Some(now))])
        else g.(nodes := g.nodes[id := Node(Some(Birth(typeId, Millis(created.value), now)), None, None)])
      case WriteFollow(source, target, _, _, _) =>
        if source !in g.nodes then g
        else Graph(if target in g.nodes then g.nodes else g.nodes[target := BARE], g.edges + {EdgeOf(w)})
  }

  /** Rows the query returns: a profile is always matched or created, a follow needs its source. */
  function Rows(g: Graph, w: Write): nat {
    if !Valid(w) then 0
    else if w.WriteProfile? then 1
    else if w.source in g.nodes then 1 else 0
  }

  /** The database, changed in place by one transaction at a time. */
  class Database {
    var nodes: map<string, Node>
    var edges: set<Edge>

    ghost function Contents(): Graph
      reads this
    {
      Graph(nodes, edges)
    }

    constructor ()
      ensures Contents() == EMPTY
    {
      nodes, edges := map[], {};
    }

    /** MERGE (p:Profile {id}) ON CREATE SET ... ON MATCH SET ... */
    method MergeProfile(id: string, typeId: string, created: int, sync: Sync, now: int) returns (rows: nat)
      modifies this
      ensures Contents() == ApplyWrite(old(Contents()), WriteProfile(id, typeId, Some(created), sync), now)
      ensures rows == 1
    {
      if id !in nodes {
        nodes := nodes[id := Node(Some(Birth(typeId, Millis(created), now)), None, None)];
      } else {
        var p := nodes[id];
        nodes := nodes[id := Node(p.birth, Some(sync), Some(now))];
      }
      return 1;
    }

    /** MATCH (a) MERGE (b) MERGE (a)-[r]->(b) */
    method MergeFollow(source: string, target: string, created: int, rev: string, version: int) returns (rows: nat)
      modifies this
      ensures Contents() == ApplyWrite(old(Contents()), WriteFollow(source, target, Some(created), rev, version), 0)
      ensures rows == Rows(old(Contents()), WriteFollow(source, target, Some(created), rev, version))
    {
      if source !in nodes {
        return 0;
      }
      if target !in nodes {
        nodes := nodes[target := BARE];
      }
      edges := edges + {Edge(source, target, Millis(created), rev, version)};
      return 1;
    }
  }

  // ---- Histories of transactions

  datatype Event = Event(write: Write, now: int)

  function Run(g: Graph, h: seq<Event>): Graph {
    if h == [] then g
    else
      var last := h[|h| - 1];
      ApplyWrite(Run(g, h[..|h| - 1]), last.write, last.now)
  }

  lemma {:induction false} RunConcat(g: Graph, h: seq<Event>, k: seq<Event>)
    ensures Run(g, h + k) == Run(Run(g, h), k)
  {
    if k == [] {
      assert h + k == h;
    } else {
      assert (h + k)[..|h + k| - 1] == h + k[..|k| - 1];
      RunConcat(g, h, k[..|k| - 1]);
    }
  }

  ghost predicate EdgesAnchored(g: Graph) {
    forall e <- g.edges :: e.source in g.nodes && e.target in g.nodes
  }

  /** No transaction leaves an edge hanging. */
  lemma {:induction false} EdgesStayAnchored(g: Graph, h: seq<Event>)
    requires EdgesAnchored(g)
    ensures EdgesAnchored(Run(g, h))
  {
    if h == [] {
    } else {
      EdgesStayAnchored(g, h[..|h| - 1]);
    }
  }

  /** Nodes and edges are never removed, and what a node was born with never changes. */
  lemma {:induction false} BirthIsForever(g: Graph, h: seq<Event>)
    ensures g.nodes.Keys <= Run(g, h).nodes.Keys && g.edges <= Run(g, h).edges
    ensures forall id <- g.nodes :: Run(g, h).nodes[id].birth == g.nodes[id].birth
  {
    if h == [] {
    } else {
      BirthIsForever(g, h[..|h| - 1]);
    }
  }

  // ---- Where a node's properties come from

  ghost predicate BornAt(h: seq<Event>, id: string, k: nat)
    requires k < |h|
  {
    id !in Run(EMPTY, h[..k]).nodes && id in Run(EMPTY, h[..k + 1]).nodes
  }

  /** type, created and ingested: from the event that created the node, if that was a profile ingest. */
  ghost predicate BirthFrom(e: Event, id: string, n: Node) {
    n.birth == if ProfileOf(e.write, id)
               then Some(Birth(e.write.typeId, Millis(e.write.created.value), e.now))
               else None
  }

  ghost predicate NoProfileAfter(h: seq<Event>, m: nat, id: string) {
    forall j :: m < j < |h| ==> !ProfileOf(h[j].write, id)
  }

  ghost predicate LastProfileOf(h: seq<Event>, m: nat, id: string)
    requires m < |h|
  {
    ProfileOf(h[m].write, id) && NoProfileAfter(h, m, id)
  }

  /** handle, rev, sig, version and updated: from the last profile ingest of this id after event k, unset if there
      is none. */
  ghost predicate SyncFrom(h: seq<Event>, k: nat, id: string, n: Node) {
    || (&& n.sync.None? && n.updated.None?
        && NoProfileAfter(h, k, id))
    || exists m :: k < m < |h| && LastProfileOf(h, m, id)
                   && n.sync == Some(h[m].write.sync) && n.updated == Some(h[m].now)
  }

  ghost predicate Explained(h: seq<Event>, id: string, n: Node) {
    exists k: nat | k < |h| :: BornAt(h, id, k) && BirthFrom(h[k], id, n) && SyncFrom(h, k, id, n)
  }

  lemma ExplainedNew(h: seq<Event>, id: string)
    requires h != [] && id in Run(EMPTY, h).nodes && id !in Run(EMPTY, h[..|h| - 1]).nodes
    ensures Explained(h, id, Run(EMPTY, h).nodes[id])
  {
    var last := |h| - 1;
    assert h[..last + 1] == h;
    assert BornAt(h, id, last);
  }

  /** What one transaction does to a node that is already there. */
  lemma ApplyOnNode(g: Graph, e: Event, id: string)
    requires id in g.nodes
    ensures
      var after := ApplyWrite(g, e.write, e.now);
      && id in after.nodes
      && after.nodes[id] == if ProfileOf(e.write, id)
                            then Node(g.nodes[id].birth, Some(e.write.sync), Some(e.now))
                            else g.nodes[id]
  {
  }

  lemma NoProfileExtends(h: seq<Event>, m: nat, id: string)
    requires h != [] && NoProfileAfter(h[..|h| - 1], m, id) && !ProfileOf(h[|h| - 1].write, id)
    ensures NoProfileAfter(h, m, id)
  {
    forall j | m < j < |h| ensures !ProfileOf(h[j].write, id) {
      if j < |h| - 1 { assert h[..|h| - 1][j] == h[j]; }
    }
  }

  lemma SyncStep(h: seq<Event>, k: nat, id: string, before: Node, after: Node)
    requires h != [] && k < |h| - 1 && SyncFrom(h[..|h| - 1], k, id, before)
    requires
      var e := h[|h| - 1];
      after == if ProfileOf(e.write, id) then Node(before.birth, Some(e.write.sync), Some(e.now)) else before
    ensures SyncFrom(h, k, id, after)
  {
    var t := h[..|h| - 1];
    var last := |h| - 1;
    if ProfileOf(h[last].write, id) {
      assert LastProfileOf(h, last, id);
    } else if NoProfileAfter(t, k, id) && before.sync.None? && before.updated.None? {
      NoProfileExtends(h, k, id);
    } else {
      var m :| k < m < |t| && LastProfileOf(t, m, id)
               && before.sync == Some(t[m].write.sync) && before.updated == Some(t[m].now);
      assert t[m] == h[m];
      NoProfileExtends(h, m, id);
      assert LastProfileOf(h, m, id);
    }
  }

  lemma ExplainedOld(h: seq<Event>, id: string, k: nat)
    requires h != [] && k < |h| - 1
    requires
      var t := h[..|h| - 1];
      var g := Run(EMPTY, t);
      id in g.nodes && BornAt(t, id, k) && BirthFrom(t[k], id, g.nodes[id]) && SyncFrom(t, k, id, g.nodes[id])
    ensures id in Run(EMPTY, h).nodes && Explained(h, id, Run(EMPTY, h).nodes[id])
  {
    var t := h[..|h| - 1];
    var g := Run(EMPTY, t);
    assert t[..k] == h[..k] && t[..k + 1] == h[..k + 1] && t[k] == h[k];
    ApplyOnNode(g, h[|h| - 1], id);
    SyncStep(h, k, id, g.nodes[id], Run(EMPTY, h).nodes[id]);
    assert BornAt(h, id, k);
  }

  lemma ExplainedStep(h: seq<Event>, id: string)
    requires h != [] && id in Run(EMPTY, h).nodes
    requires
      var g := Run(EMPTY, h[..|h| - 1]);
      id in g.nodes ==> Explained(h[..|h| - 1], id, g.nodes[id])
    ensures Explained(h, id, Run(EMPTY, h).nodes[id])
  {
    var t := h[..|h| - 1];
    var g := Run(EMPTY, t);
    if id !in g.nodes {
      ExplainedNew(h, id);
    } else {
      var k: nat :| k < |t| && BornAt(t, id, k) && BirthFrom(t[k], id, g.nodes[id]) && SyncFrom(t, k, id, g.nodes[id]);
      ExplainedOld(h, id, k);
    }
  }

  /** After any history from the empty graph every node's properties are explained by the event that created it
      and the last profile ingest that found it already there. */
  lemma {:induction false} PropertyProvenance(h: seq<Event>)
    ensures forall id <- Run(EMPTY, h).nodes :: Explained(h, id, Run(EMPTY, h).nodes[id])
  {
    if h == [] {
    } else {
      var t := h[..|h| - 1];
      PropertyProvenance(t);
      forall id <- Run(EMPTY, h).nodes ensures Explained(h, id, Run(EMPTY, h).nodes[id]) {
        ExplainedStep(h, id);
      }
    }
  }
}
