/** The two ingest engines: the capacity-1 record channel, the transaction that fills it, the loop that drains it. */
module Engines {
  import opened Errors
  import opened RateLimit
  import opened RepoWalk
  import opened ProfileGraph

  datatype SendResult = Sent | WouldBlock | SendPanics

  /** `make(chan *Record, 1)`. Only the number of buffered records matters: they are logged and dropped. */
  class RecordChannel {
    const capacity: nat
    var buffered: nat
    var closed: bool

    ghost predicate Valid()
      reads this
    {
      buffered <= capacity
    }

    constructor (capacity: nat)
      ensures Valid() && this.capacity == capacity && buffered == 0 && !closed
    {
      this.capacity, buffered, closed := capacity, 0, false;
    }

    method Send() returns (r: SendResult)
      requires Valid()
      modifies this
      ensures Valid() && closed == old(closed)
      ensures r == if closed then SendPanics else if old(buffered) == capacity then WouldBlock else Sent
      ensures buffered == old(buffered) + (if r.Sent? then 1 else 0)
    {
      if closed { return SendPanics; }
      if buffered == capacity { return WouldBlock; }
      buffered := buffered + 1;
      return Sent;
    }

    /** Closing a closed channel panics. */
    method Close() returns (ok: bool)
      requires Valid()
      modifies this
      ensures Valid() && closed && buffered == old(buffered) && ok == !old(closed)
    {
      ok := !closed;
      closed := true;
    }

    /** Receiving from a closed channel: a buffered record, or not ok. */
    method Receive() returns (ok: bool)
      requires Valid() && closed
      modifies this
      ensures Valid() && closed && ok == (old(buffered) > 0)
      ensures buffered == if ok then old(buffered) - 1 else 0
    {
      ok := buffered > 0;
      if ok { buffered := buffered - 1; }
    }
  }

  // ---- The transaction function

  /** How running the transaction function ends for the goroutine that runs it. */
  datatype Fate = Completed | Blocked | Panicked

  function FateOf(runs: seq<nat>): Fate {
    if runs == [] then Completed
    else if runs[0] > 1 then Blocked
    else if |runs| > 1 then Panicked
    else Completed
  }

  /** ExecuteWrite runs its function once per attempt; `runs` holds the rows each attempt sends before its deferred
      close. Nobody receives before the goroutine is done. */
  method ExecuteWrite(runs: seq<nat>) returns (fate: Fate, buffered: nat, closed: bool)
    ensures fate == FateOf(runs)
    ensures fate.Completed? <==> |runs| <= 1 && forall rows <- runs :: rows <= 1
    ensures fate.Completed? ==> closed == (|runs| == 1) && buffered == (if |runs| == 1 then runs[0] else 0) <= 1
  {
    assert runs == [] || runs[0] in runs;
    var records := new RecordChannel(1);
    for i := 0 to |runs|
      invariant records.Valid() && records.closed == (i > 0)
      invariant i > 0 ==> runs[0] <= 1 && records.buffered == runs[0]
      invariant i == 0 ==> records.buffered == 0
      invariant i <= 1
      invariant records.capacity == 1
    {
      var rows := 0;
      while rows < runs[i]
        invariant rows <= runs[i] && records.Valid() && records.closed == (i > 0)
        invariant i == 0 ==> records.buffered == rows
        invariant i > 0 ==> rows == 0 && runs[0] <= 1 && records.buffered == runs[0]
      {
        var sent := records.Send();
        if sent.WouldBlock? { return Blocked, records.buffered, records.closed; }
        if sent.SendPanics? { return Panicked, records.buffered, records.closed; }
        rows := rows + 1;
      }
      var ok := records.Close();
      if !ok { return Panicked, records.buffered, records.closed; }
    }
    return Completed, records.buffered, records.closed;
  }

  // ---- Ingest: shared shape

  datatype Route = ToProfile | ToFollow | NoWrite | UnknownType

  predicate KnownType(nsid: string) {
    nsid in {FEED_POST, ACTOR_PROFILE, GRAPH_FOLLOW, FEED_REPOST, FEED_LIKE,
             GRAPH_BLOCK, GRAPH_LIST_BLOCK, GRAPH_LIST, GRAPH_LIST_ITEM}
  }

  /** neo4j's ingestItem: a known type with the wrong payload is dropped silently. */
  function Neo4jRoute(item: RepoItem): Route {
    if item.nsid == ACTOR_PROFILE then (if item.data.ActorProfile? then ToProfile else NoWrite)
    else if item.nsid == GRAPH_FOLLOW then (if item.data.GraphFollow? then ToFollow else NoWrite)
    else if KnownType(item.nsid) then NoWrite
    else UnknownType
  }

  function ClickHouseRoute(item: RepoItem): Route {
    if item.nsid == ACTOR_PROFILE then (if item.data.ActorProfile? then ToProfile else NoWrite)
    else if KnownType(item.nsid) then NoWrite
    else UnknownType
  }

  const MAPPING_ERROR := Plain("ingest: error mapping")

  /** errors.Join(err, ingestionErr) */
  function JoinErr(err: GoError): GoError {
    Join(err.text + "\n" + MAPPING_ERROR.text, [err, MAPPING_ERROR])
  }

  /** The only errors Ingest returns. */
  predicate NilOrJoined(err: Option<GoError>) {
    err.Some? ==> err.value.Join?
  }

  /** The receive loop. `doneAt` is the receive at which the select picks a cancelled context instead. */
  method Drain(records: RecordChannel, doneAt: Option<nat>) returns (cancelled: bool, receives: nat)
    requires records.Valid() && records.closed
    modifies records
    ensures receives <= old(records.buffered) + 1
    ensures !cancelled ==> receives == old(records.buffered) + 1
    ensures cancelled <==> doneAt.Some? && doneAt.value <= old(records.buffered)
  {
    receives := 0;
    while true
      invariant records.Valid() && records.closed
      invariant receives + records.buffered == old(records.buffered)
      invariant doneAt.Some? ==> receives <= doneAt.value
      decreases records.buffered
    {
      if doneAt == Some(receives) {
        return true, receives;
      }
      var ok := records.Receive();
      receives := receives + 1;
      if !ok {
        return false, receives;
      }
    }
  }

  const CONTEXT_CANCELED := Join("context canceled", [Plain("context canceled")])

  // ---- neo4j

  /** Outcomes of one Ingest call that its code does not decide. `doneAt`: see Drain. */
  datatype Environment = Environment(sessionErr: Option<GoError>, runErr: Option<GoError>, commitErr: Option<GoError>,
                                     now: int, doneAt: Option<nat>)

  /** time.Time's Unix(): whole seconds, rounded towards the past. */
  function UnixSeconds(created: Option<int>): Option<int> {
    if created.None? then None else Some(created.value / 1_000_000_000)
  }

  function ToWrite(item: RepoItem): Write
    requires Neo4jRoute(item).ToProfile? || Neo4jRoute(item).ToFollow?
  {
    match item.data
    case ActorProfile(typeId, created, _) =>
      WriteProfile(item.did, typeId, UnixSeconds(created), Sync(item.handle, item.rev, item.sig, item.version))
    case GraphFollow(_, subject, created) =>
      WriteFollow(item.did, subject, UnixSeconds(created), item.rev, item.version)
  }

  predicate WritesGraph(item: RepoItem) {
    Neo4jRoute(item).ToProfile? || Neo4jRoute(item).ToFollow?
  }

  predicate Commits(item: RepoItem, env: Environment) {
    && WritesGraph(item) && Valid(ToWrite(item))
    && env.sessionErr.None? && env.runErr.None? && env.commitErr.None?
  }

  /** The nine collections both engines know. */
  predicate InLexicon(nsid: string) {
    nsid in {"app.bsky.feed.post", "app.bsky.feed.repost", "app.bsky.feed.like",
             "app.bsky.actor.profile", "app.bsky.graph.follow", "app.bsky.graph.block",
             "app.bsky.graph.list", "app.bsky.graph.listblock", "app.bsky.graph.listitem"}
  }

  /** What a committed ingest does to the graph, in the item's own fields. A follow whose source has a node gets exactly
      one relationship, and its subject a bare node if it had none; a profile makes a node with its type and times, or
      sets handle, revision, signature and version on the node that is there. Creation times are milliseconds of whole
      seconds. */
  function AfterIngest(g: Graph, item: RepoItem, now: int): Graph {
    match item.data
    case GraphFollow(_, subject, Some(created)) =>
      if item.did !in g.nodes then g
      else
        var nodes := if subject in g.nodes then g.nodes else g.nodes[subject := Node(None, None, None)];
        Graph(nodes, g.edges + {Edge(item.did, subject, created / 1_000_000_000 * 1000, item.rev, item.version)})
    case ActorProfile(typeId, Some(created), _) =>
      var sync := Sync(item.handle, item.rev, item.sig, item.version);
      var node := if item.did in g.nodes then Node(g.nodes[item.did].birth, Some(sync), Some(now))
                  else Node(Some(Birth(typeId, created / 1_000_000_000 * 1000, now)), None, None);
      Graph(g.nodes[item.did := node], g.edges)
    case _ => g
  }

  /** The items neo4j has a query for, with a creation time that parses. */
  predicate Storable(item: RepoItem) {
    || (item.nsid == "app.bsky.actor.profile" && item.data.ActorProfile? && item.data.created.Some?)
    || (item.nsid == "app.bsky.graph.follow" && item.data.GraphFollow? && item.data.created.Some?)
  }

  lemma IngestIsWrite(g: Graph, item: RepoItem, now: int)
    ensures WritesGraph(item) ==> ApplyWrite(g, ToWrite(item), now) == AfterIngest(g, item, now)
    ensures WritesGraph(item) && Valid(ToWrite(item)) <==> Storable(item)
    ensures WritesGraph(item) <==>
              || (item.nsid == "app.bsky.actor.profile" && item.data.ActorProfile?)
              || (item.nsid == "app.bsky.graph.follow" && item.data.GraphFollow?)
  {
  }

  class Neo4jEngine {
    const db: Database

    constructor (db: Database)
      ensures this.db == db
    {
      this.db := db;
    }

    /** ingestProfile and ingestFollow, with the transaction function run once. Returns the record channel and
        the group's error. */
    method Transact(item: RepoItem, env: Environment) returns (records: RecordChannel, err: Option<GoError>)
      requires WritesGraph(item)
      modifies db
      ensures fresh(records) && records.Valid() && records.buffered <= 1
      ensures err.None? ==> records.closed
      ensures err.None? <==> Commits(item, env)
      ensures err == if env.sessionErr.Some? then env.sessionErr
                     else if item.data.created.None? then Some(Plain("missing datetime"))
                     else if env.runErr.Some? then env.runErr else env.commitErr
      ensures err.None? ==> records.buffered == Rows(old(db.Contents()), ToWrite(item))
      ensures db.Contents()
           == if Commits(item, env) then ApplyWrite(old(db.Contents()), ToWrite(item), env.now) else old(db.Contents())
    {
      records := new RecordChannel(1);
      var w := ToWrite(item);
      if env.sessionErr.Some? {
        return records, env.sessionErr;
      }
      if w.created.None? {
        var _ := records.Close();
        return records, Some(Plain("missing datetime"));
      }
      if env.runErr.Some? {
        var _ := records.Close();
        return records, env.runErr;
      }
      var nodes, edges := db.nodes, db.edges;
      var rows: nat;
      match w {
        case WriteProfile(id, typeId, created, sync) =>
          rows := db.MergeProfile(id, typeId, created.value, sync, env.now);
        case WriteFollow(source, target, created, rev, version) =>
          rows := db.MergeFollow(source, target, created.value, rev, version);
      }
      for row := 0 to rows
        modifies records
        invariant records.Valid() && !records.closed && records.capacity == 1 && records.buffered == row
      {
        var sent := records.Send();
        assert sent.Sent?;  // at most one row, so the send never blocks
      }
      var ok := records.Close();
      assert ok;
      if env.commitErr.Some? {
        db.nodes, db.edges := nodes, edges;
        return records, env.commitErr;
      }
      return records, None;
    }

    /** The whole new graph; nil, or the stage's error joined with the mapping error; the receives, when the context
        stays. */
    method Ingest(item: RepoItem, env: Environment) returns (err: Option<GoError>, receives: nat)
      modifies db
      ensures NilOrJoined(err) && receives <= 2
      ensures db.Contents()
           == if Commits(item, env) then ApplyWrite(old(db.Contents()), ToWrite(item), env.now) else old(db.Contents())
      ensures db.Contents()
           == if Storable(item) && env.sessionErr.None? && env.runErr.None? && env.commitErr.None?
              then AfterIngest(old(db.Contents()), item, env.now) else old(db.Contents())
      ensures env.doneAt.None? ==>
                (err.None? <==> InLexicon(item.nsid) && (WritesGraph(item) ==> Commits(item, env)))
      ensures env.doneAt.None? && err.Some? ==> |err.value.parts| == 2 && err.value.parts[1] == MAPPING_ERROR
      ensures env.doneAt.None? ==>
                receives == if err.Some? then 0
                            else if Storable(item) && (item.data.ActorProfile? || item.did in old(db.nodes)) then 2
                            else 1
      ensures env.doneAt.None? && !InLexicon(item.nsid) ==>
                err.Some? && err.value.parts[0] == Plain("found unknown type in tree")
      ensures env.doneAt.None? && err.Some? && WritesGraph(item) ==>
                Some(err.value.parts[0]) == if env.sessionErr.Some? then env.sessionErr
                                            else if item.data.created.None? then Some(Plain("missing datetime"))
                                            else if env.runErr.Some? then env.runErr else env.commitErr
    {
      receives := 0;
      IngestIsWrite(db.Contents(), item, env.now);
      if Neo4jRoute(item).UnknownType? {
        return Some(JoinErr(Plain("found unknown type in tree"))), receives;
      }
      var records: RecordChannel;
      if WritesGraph(item) {
        records, err := Transact(item, env);
        if err.Some? {
          return Some(JoinErr(err.value)), receives;
        }
      } else {
        records := new RecordChannel(1);
        var _ := records.Close();
      }
      var cancelled;
      cancelled, receives := Drain(records, env.doneAt);
      return if cancelled then Some(CONTEXT_CANCELED) else None, receives;
    }
  }

  // ---- ClickHouse

  /** The column buffers of one profile insert; `created` has nanosecond precision. */
  datatype Block = Block(did: seq<string>, lexicon: seq<string>, handle: seq<string>, created: seq<int>,
                         rev: seq<string>, sig: seq<string>, version: seq<int>, description: seq<string>)

  ghost predicate Rectangular(b: Block) {
    |b.did| == |b.lexicon| == |b.handle| == |b.created| == |b.rev| == |b.sig| == |b.version| == |b.description|
  }

  /** The row of an item, column by column; the created column stays empty without a time that parses. */
  function ProfileRow(item: RepoItem): Block
    requires item.data.ActorProfile?
  {
    Block([item.did], [item.data.typeId], [item.handle],
          if item.data.created.Some? then [item.data.created.value] else [],
          [item.rev], [item.sig], [item.version % 256],
          [if item.data.description.Some? then item.data.description.value else ""])
  }

  method FillBlock(item: RepoItem) returns (b: Block)
    requires item.data.ActorProfile?
    ensures b == ProfileRow(item)
    ensures Rectangular(b) <==> item.data.created.Some?
  {
    b := Block([], [], [], [], [], [], [], []);
    b := b.(did := b.did + [item.did]);
    b := b.(lexicon := b.lexicon + [item.data.typeId]);
    b := b.(handle := b.handle + [item.handle]);
    // a missing or malformed timestamp is logged and its column left one row short
    if item.data.created.Some? {
      b := b.(created := b.created + [item.data.created.value]);
    }
    b := b.(rev := b.rev + [item.rev]);
    b := b.(sig := b.sig + [item.sig]);
    b := b.(version := b.version + [item.version % 256]);
    b := b.(description := b.description + [if item.data.description.Some? then item.data.description.value else ""]);
  }

  /** connErr: no connection; insertErr: the insert fails. */
  datatype InsertEnv = InsertEnv(connErr: Option<GoError>, insertErr: Option<GoError>, doneAt: Option<nat>)

  /** The goroutine's own sends and its deferred close; `inserted` is the block handed to the server. */
  method ClickHouseProfile(item: RepoItem, env: InsertEnv)
    returns (records: RecordChannel, inserted: Option<Block>, err: Option<GoError>)
    requires item.data.ActorProfile?
    ensures fresh(records) && records.Valid() && records.closed
    ensures records.buffered == if err.None? then 1 else 0
    ensures err == if env.connErr.Some? then env.connErr else env.insertErr
    ensures inserted == if env.connErr.None? then Some(ProfileRow(item)) else None
  {
    records := new RecordChannel(1);
    if env.connErr.Some? {
      var _ := records.Close();
      return records, None, env.connErr;
    }
    var block := FillBlock(item);
    if env.insertErr.Some? {
      var _ := records.Close();
      return records, Some(block), env.insertErr;
    }
    var sent := records.Send();
    assert sent.Sent?;
    var _ := records.Close();
    return records, Some(block), None;
  }

  /** `inserted` is what the call has handed to the server: the row of a profile, nothing for any other item. */
  method ClickHouseIngest(item: RepoItem, env: InsertEnv)
    returns (err: Option<GoError>, receives: nat, inserted: Option<Block>)
    ensures NilOrJoined(err) && receives <= 2
    ensures inserted.Some? <==> item.nsid == "app.bsky.actor.profile" && item.data.ActorProfile? && env.connErr.None?
    ensures inserted.Some? ==>
              && inserted.value.did == [item.did] && inserted.value.lexicon == [item.data.typeId]
              && inserted.value.handle == [item.handle] && inserted.value.rev == [item.rev]
              && inserted.value.sig == [item.sig] && inserted.value.version == [item.version % 256]
              && inserted.value.created == (if item.data.created.Some? then [item.data.created.value] else [])
              && inserted.value.description == [if item.data.description.Some? then item.data.description.value else ""]
    ensures env.doneAt.None? ==>
              (err.None? <==>
               && InLexicon(item.nsid)
               && (item.nsid == "app.bsky.actor.profile" && item.data.ActorProfile? ==>
                     env.connErr.None? && env.insertErr.None?))
    ensures env.doneAt.None? ==> receives == if err.Some? then 0 else if inserted.Some? then 2 else 1
    ensures env.doneAt.None? && err.Some? ==> |err.value.parts| == 2 && err.value.parts[1] == MAPPING_ERROR
    ensures env.doneAt.None? && inserted.Some? && err.Some? ==> Some(err.value.parts[0]) == env.insertErr
    ensures env.doneAt.None? && !InLexicon(item.nsid) ==>
              err.Some? && err.value.parts[0] == Plain("found unknown type in tree")
  {
    receives, inserted := 0, None;
    if ClickHouseRoute(item).UnknownType? {
      return Some(JoinErr(Plain("found unknown type in tree"))), receives, inserted;
    }
    var records: RecordChannel;
    if ClickHouseRoute(item).ToProfile? {
      records, inserted, err := ClickHouseProfile(item, env);
      if err.Some? {
        return Some(JoinErr(err.value)), receives, inserted;
      }
    } else {
      records := new RecordChannel(1);
      var _ := records.Close();
    }
    var cancelled;
    cancelled, receives := Drain(records, env.doneAt);
    return if cancelled then Some(CONTEXT_CANCELED) else None, receives, inserted;
  }

  // ---- Ingest under WithRetry

  /** Neither engine's errors are bare API errors, so an ingest is never retried: one call, and WithRetry returns nil
      whatever the call returned. */
  lemma SingleIngestAttempt(l: Limits, op: OperationType, err: Option<GoError>, cancelled: bool, rest: seq<Attempt>)
    requires NilOrJoined(err)
    ensures Retry(l, l.BaseWait(op), 0, [Attempt(err, cancelled)] + rest) == Outcome(ReturnedNil, 1, [])
  {
  }

  /** The value an ingest worker sends on `results`: what WithRetry returns for an ingest that returned `err`. */
  function IngestReport(l: Limits, err: Option<GoError>): (report: Option<GoError>)
    requires NilOrJoined(err)
    ensures report == None
  {
    SingleIngestAttempt(l, WriteOperation, err, false, []);
    match Retry(l, l.BaseWait(WriteOperation), 0, [Attempt(err, false)]).result
    case ReturnedNil => None
    case Exhausted(_, cause) => Some(Wrap("retries exhausted", cause))
    case _ => Some(Plain("context cancelled while waiting for rate limit"))
  }

  /** What the walk emits is always something the graph engine writes. */
  lemma WalkItemsAreWritten(r: Repo)
    ensures forall item <- Emitted(r) :: WritesGraph(item)
  {
    var n := GoodPrefix(r.entries);
    if !r.badDid {
      forall i | 0 <= i < |Emitted(r)| ensures WritesGraph(Emitted(r)[i]) {
        assert Good(r.entries[i]);
      }
    }
  }
}
