/** The walk over one repository's record tree: resolveLexicon and what it sends to the items channel. */
module RepoWalk {
  import opened Errors

  const FEED_POST := "app.bsky.feed.post"
  const FEED_REPOST := "app.bsky.feed.repost"
  const FEED_LIKE := "app.bsky.feed.like"
  const ACTOR_PROFILE := "app.bsky.actor.profile"
  const GRAPH_FOLLOW := "app.bsky.graph.follow"
  const GRAPH_BLOCK := "app.bsky.graph.block"
  const GRAPH_LIST := "app.bsky.graph.list"
  const GRAPH_LIST_BLOCK := "app.bsky.graph.listblock"
  const GRAPH_LIST_ITEM := "app.bsky.graph.listitem"

  /** A decoded record by Go type. `created` is CreatedAt in nanoseconds
      since the Unix epoch, None when missing or not RFC 3339. */
  datatype Record =
    | FeedPost
    | FeedRepost
    | FeedLike
    | ActorProfile(typeId: string, created: Option<int>, description: Option<string>)
    | GraphFollow(typeId: string, subject: string, created: Option<int>)
    | GraphBlock
    | GraphList
    | GraphListBlock
    | GraphListItem
    | OtherRecord

  datatype RepoItem = RepoItem(did: string, handle: string, rev: string, sig: string, version: int,
                               nsid: string, data: Record)

  /** A tree entry: its key, the normalised NSID of the key's first segment, and the record GetRecord finds (None: an
      error). */
  datatype Entry = Entry(key: string, nsid: string, rec: Option<Record>)

  /** `badDid`: the commit's DID does not parse. `broken`: ForEach itself fails after the entries. */
  datatype Repo = Repo(did: string, badDid: bool, handle: string, rev: string, sig: string, version: int,
                       entries: seq<Entry>, broken: bool)

  datatype WalkError = BadDid | Unreadable | WrongType(nsid: string) | Unsupported(nsid: string) | TreeBroken

  /** The callback's answer for one entry: an item to send, or the error that stops the walk. */
  datatype Visited = Send(item: RepoItem) | Stop(err: WalkError)

  function ItemOf(r: Repo, nsid: string, data: Record): RepoItem {
    RepoItem(r.did, r.handle, r.rev, r.sig, r.version, nsid, data)
  }

  function Visit(r: Repo, e: Entry): Visited {
    if e.rec.None? then Stop(Unreadable)
    else
      var rec := e.rec.value;
      if e.nsid == FEED_POST then
        if !rec.FeedPost? then Stop(WrongType(e.nsid)) else Stop(Unsupported(e.nsid))
      else if e.nsid == ACTOR_PROFILE then
        if !rec.ActorProfile? then Stop(WrongType(e.nsid)) else Send(ItemOf(r, e.nsid, rec))
      else if e.nsid == GRAPH_FOLLOW then
        if !rec.GraphFollow? then Stop(WrongType(e.nsid)) else Send(ItemOf(r, e.nsid, rec))
      else if e.nsid == FEED_REPOST then
        if !rec.FeedRepost? then Stop(WrongType(e.nsid)) else Stop(Unsupported(e.nsid))
      else if e.nsid == FEED_LIKE then
        if !rec.FeedLike? then Stop(WrongType(e.nsid)) else Stop(Unsupported(e.nsid))
      else if e.nsid == GRAPH_BLOCK then
        if !rec.GraphBlock? then Stop(WrongType(e.nsid)) else Stop(Unsupported(e.nsid))
      else if e.nsid == GRAPH_LIST_BLOCK then
        if !rec.GraphListBlock? then Stop(WrongType(e.nsid)) else Stop(Unsupported(e.nsid))
      else if e.nsid == GRAPH_LIST then
        if !rec.GraphList? then Stop(WrongType(e.nsid)) else Stop(Unsupported(e.nsid))
      else if e.nsid == GRAPH_LIST_ITEM then
        if !rec.GraphListItem? then Stop(WrongType(e.nsid)) else Stop(Unsupported(e.nsid))
      else Stop(Unsupported(e.nsid))
  }

  // ---- What a reader expects: the longest prefix of good profile and follow records

  predicate GoodProfile(e: Entry) {
    e.nsid == ACTOR_PROFILE && e.rec.Some? && e.rec.value.ActorProfile?
  }

  predicate GoodFollow(e: Entry) {
    e.nsid == GRAPH_FOLLOW && e.rec.Some? && e.rec.value.GraphFollow?
  }

  predicate Good(e: Entry)
    ensures Good(e) ==> e.rec.Some?
  {
    GoodProfile(e) || GoodFollow(e)
  }

  /** Length of the longest prefix of good entries. */
  function GoodPrefix(es: seq<Entry>): (n: nat)
    ensures n <= |es|
    ensures forall i :: 0 <= i < n ==> Good(es[i])
    ensures n < |es| ==> !Good(es[n])
  {
    if es == [] || !Good(es[0]) then 0
    else
      var n := GoodPrefix(es[1..]);
      assert forall i :: 0 < i <= n ==> es[i] == es[1..][i - 1];
      n + 1
  }

  function Items(r: Repo, es: seq<Entry>): (items: seq<RepoItem>)
    requires forall i :: 0 <= i < |es| ==> Good(es[i])
    ensures |items| == |es|
    ensures forall i :: 0 <= i < |es| ==> Good(es[i]) && items[i] == ItemOf(r, es[i].nsid, es[i].rec.value)
  {
    if es == [] then []
    else
      assert Good(es[0]);
      [ItemOf(r, es[0].nsid, es[0].rec.value)] + Items(r, es[1..])
  }

  /** The items one walk sends, in order. */
  function Emitted(r: Repo): seq<RepoItem> {
    if r.badDid then [] else Items(r, r.entries[..GoodPrefix(r.entries)])
  }

  /** The callback sends exactly the good entries. */
  lemma VisitSendsGood(r: Repo, e: Entry)
    ensures Visit(r, e).Send? <==> Good(e)
    ensures Good(e) ==> Visit(r, e) == Send(ItemOf(r, e.nsid, e.rec.value))
  {
  }

  /** The sending side of the items channel. */
  class Outbox {
    var sent: seq<RepoItem>

    constructor ()
      ensures sent == []
    {
      sent := [];
    }

    method Send(item: RepoItem)
      modifies this
      ensures sent == old(sent) + [item]
    {
      sent := sent + [item];
    }
  }

  /** The collection a record type belongs to. */
  function LexiconOf(rec: Record): Option<string> {
    match rec
    case FeedPost => Some("app.bsky.feed.post")
    case FeedRepost => Some("app.bsky.feed.repost")
    case FeedLike => Some("app.bsky.feed.like")
    case ActorProfile(_, _, _) => Some("app.bsky.actor.profile")
    case GraphFollow(_, _, _) => Some("app.bsky.graph.follow")
    case GraphBlock => Some("app.bsky.graph.block")
    case GraphList => Some("app.bsky.graph.list")
    case GraphListBlock => Some("app.bsky.graph.listblock")
    case GraphListItem => Some("app.bsky.graph.listitem")
    case OtherRecord => None
  }

  /** An entry is sent exactly if its record is a profile or a follow in its own collection; else the walk stops, with
      an error that tells an unreadable record, a record in a wrong collection and an unsupported collection apart. */
  lemma VisitDecides(r: Repo, e: Entry)
    ensures Visit(r, e).Send? <==> e.rec.Some? && (e.rec.value.ActorProfile? || e.rec.value.GraphFollow?)
                                   && LexiconOf(e.rec.value) == Some(e.nsid)
    ensures Visit(r, e).Stop? ==>
              Visit(r, e).err
              == if e.rec.None? then Unreadable
                 else if e.nsid in {"app.bsky.feed.post", "app.bsky.feed.repost", "app.bsky.feed.like",
                                    "app.bsky.actor.profile", "app.bsky.graph.follow", "app.bsky.graph.block",
                                    "app.bsky.graph.list", "app.bsky.graph.listblock", "app.bsky.graph.listitem"}
                         && LexiconOf(e.rec.value) != Some(e.nsid) then WrongType(e.nsid)
                 else Unsupported(e.nsid)
  {
  }

  /** What is sent, field by field: item k has the identity, revision and signature of the repository, and the
      collection and record of its k-th entry, a profile or a follow; the first entry that is neither ends the walk. */
  lemma EmittedFields(r: Repo)
    ensures r.badDid ==> Emitted(r) == []
    ensures |Emitted(r)| <= |r.entries|
    ensures forall k :: 0 <= k < |Emitted(r)| ==>
              var item, e := Emitted(r)[k], r.entries[k];
              && item.did == r.did && item.handle == r.handle && item.rev == r.rev && item.sig == r.sig
              && item.version == r.version && item.nsid == e.nsid && e.rec == Some(item.data)
              && ((item.data.ActorProfile? && item.nsid == "app.bsky.actor.profile")
                  || (item.data.GraphFollow? && item.nsid == "app.bsky.graph.follow"))
    ensures !r.badDid && |Emitted(r)| < |r.entries| ==>
              var e := r.entries[|Emitted(r)|];
              e.rec.Some? ==> !(e.rec.value.ActorProfile? && e.nsid == "app.bsky.actor.profile")
                              && !(e.rec.value.GraphFollow? && e.nsid == "app.bsky.graph.follow")
  {
    if !r.badDid {
      forall k | 0 <= k < |Emitted(r)| ensures Good(r.entries[k]) {}
    }
  }

  method ResolveLexicon(r: Repo, items: Outbox) returns (err: Option<WalkError>)
    modifies items
    ensures items.sent == old(items.sent) + Emitted(r)
    ensures forall k :: 0 <= k < |items.sent| - |old(items.sent)| ==>
              var item := items.sent[|old(items.sent)| + k];
              k < |r.entries| && r.entries[k].rec.Some?
              && item == RepoItem(r.did, r.handle, r.rev, r.sig, r.version, r.entries[k].nsid, r.entries[k].rec.value)
    ensures err.None? <==> !r.badDid && !r.broken && forall e <- r.entries :: Good(e)
    ensures
      var n := |items.sent| - |old(items.sent)|;
      err == if r.badDid then Some(BadDid)
             else if n < |r.entries| then Some(Visit(r, r.entries[n]).err)
             else if r.broken then Some(TreeBroken) else None
  {
    EmittedFields(r);
    if r.badDid {
      return Some(BadDid);
    }
    ghost var n := GoodPrefix(r.entries);
    ghost var all := Items(r, r.entries[..n]);
    for i := 0 to |r.entries|
      invariant i <= n
      invariant items.sent == old(items.sent) + all[..i]
    {
      VisitSendsGood(r, r.entries[i]);
      match Visit(r, r.entries[i]) {
        case Stop(e) =>
          assert r.entries[i] in r.entries;
          return Some(e);
        case Send(item) =>
          items.Send(item);
      }
    }
    assert r.entries[..n] == r.entries;
    return if r.broken then Some(TreeBroken) else None;
  }

  /** Emitted is the one prefix that is all good and cannot be extended. */
  lemma WalkIsLongestGoodPrefix(r: Repo, n: nat)
    requires !r.badDid && n <= |r.entries|
    requires forall i :: 0 <= i < n ==> Good(r.entries[i])
    requires n < |r.entries| ==> !Good(r.entries[n])
    ensures |Emitted(r)| == n
    ensures forall i :: 0 <= i < n ==> Emitted(r)[i] == ItemOf(r, r.entries[i].nsid, r.entries[i].rec.value)
  {
    var m := GoodPrefix(r.entries);
  }

  // ---- Key order: the tree is walked in ascending key order

  /** Lexicographic order on keys. */
  predicate Less(a: string, b: string) {
    if b == [] then false
    else if a == [] then true
    else a[0] < b[0] || (a[0] == b[0] && Less(a[1..], b[1..]))
  }

  /** strings.SplitN(k, "/", 2)[0] */
  function Collection(key: string): (c: string)
    ensures c <= key && '/' !in c
    ensures c == key || key[|c|] == '/'
  {
    if key == [] || key[0] == '/' then [] else [key[0]] + Collection(key[1..])
  }

  /** The first difference decides; a proper prefix comes first. */
  lemma {:induction false} LessIff(a: string, b: string)
    ensures Less(a, b) <==> exists n: nat :: n <= |a| && n < |b| && a[..n] == b[..n] && (n == |a| || a[n] < b[n])
  {
    if b == [] {
    } else if a == [] {
      assert a[..0] == b[..0];
    } else if a[0] != b[0] {
      if a[0] < b[0] { assert a[..0] == b[..0]; }
      forall n: nat | 0 < n <= |a| && n < |b| ensures a[..n] != b[..n] {
        assert a[..n][0] != b[..n][0];
      }
    } else {
      LessIff(a[1..], b[1..]);
      if Less(a, b) {
        var n: nat :| n <= |a| - 1 && n < |b| - 1 && a[1..][..n] == b[1..][..n]
                      && (n == |a| - 1 || a[1..][n] < b[1..][n]);
        assert a[..n + 1] == [a[0]] + a[1..][..n] && b[..n + 1] == [b[0]] + b[1..][..n];
        assert a[..n + 1] == b[..n + 1];
      }
      if n: nat :| n <= |a| && n < |b| && a[..n] == b[..n] && (n == |a| || a[n] < b[n]) {
        assert n > 0;
        assert a[1..][..n - 1] == a[..n][1..] == b[..n][1..] == b[1..][..n - 1];
      }
    }
  }

  ghost predicate Sorted(r: Repo) {
    forall i, j :: 0 <= i < j < |r.entries| ==> Less(r.entries[i].key, r.entries[j].key)
  }

  /** Normalisation leaves the collections of this repository as they are. */
  ghost predicate NormalCollections(r: Repo) {
    forall e <- r.entries :: e.nsid == Collection(e.key)
  }

  lemma {:induction false} LessTransitive(a: string, b: string, c: string)
    requires Less(a, b) && Less(b, c)
    ensures Less(a, c)
  {
    if a != [] && a[0] == b[0] && b[0] == c[0] {
      LessTransitive(a[1..], b[1..], c[1..]);
    }
  }

  lemma {:induction false} ExtensionNotLess(p: string, k: string)
    requires p <= k
    ensures !Less(k, p)
  {
    if p == [] {
    } else {
      ExtensionNotLess(p[1..], k[1..]);
    }
  }

  /** A prefix below a bound keeps its extensions below, unless it is a prefix of the bound itself. */
  lemma {:induction false} ExtensionStaysLess(p: string, k: string, b: string)
    requires p <= k && Less(p, b) && !(p <= b)
    ensures Less(k, b)
  {
    if p[0] == b[0] {
      ExtensionStaysLess(p[1..], k[1..], b[1..]);
    }
  }

  /** In a sorted repository no follow record comes before a key below the follow collection. */
  lemma FollowsComeAfter(r: Repo, i: nat, j: nat)
    requires Sorted(r) && NormalCollections(r)
    requires i < |r.entries| && Less(r.entries[i].key, GRAPH_FOLLOW)
    requires j < |r.entries| && r.entries[j].nsid == GRAPH_FOLLOW
    ensures i < j
  {
    assert r.entries[j] in r.entries;
    ExtensionNotLess(GRAPH_FOLLOW, r.entries[j].key);
    if j < i {
      LessTransitive(r.entries[j].key, r.entries[i].key, GRAPH_FOLLOW);
    }
  }

  /** One key below the follow collection that is not a profile, and the repository's follows are never emitted. */
  lemma EarlierCollectionHidesFollows(r: Repo, i: nat)
    requires Sorted(r) && NormalCollections(r)
    requires i < |r.entries| && Less(r.entries[i].key, GRAPH_FOLLOW) && r.entries[i].nsid != ACTOR_PROFILE
    ensures forall item <- Emitted(r) :: item.nsid == ACTOR_PROFILE && item.data.ActorProfile?
  {
    if !r.badDid {
      var n := GoodPrefix(r.entries);
      if i < n {
        assert Good(r.entries[i]);
        FollowsComeAfter(r, i, i);
      }
      forall k | 0 <= k < |Emitted(r)|
        ensures Emitted(r)[k].nsid == ACTOR_PROFILE && Emitted(r)[k].data.ActorProfile?
      {
        assert Good(r.entries[k]);
        if GoodFollow(r.entries[k]) { FollowsComeAfter(r, i, k); }
      }
    }
  }

  lemma {:induction false} LessAfterCommonPrefix(a: string, b: string, n: nat)
    requires n < |a| && n < |b| && a[..n] == b[..n] && a[n] < b[n]
    ensures Less(a, b) && !(a <= b)
  {
    if n == 0 {
    } else {
      assert a[0] == a[..n][0] == b[..n][0] == b[0];
      assert a[1..][..n - 1] == a[..n][1..] == b[..n][1..] == b[1..][..n - 1];
      LessAfterCommonPrefix(a[1..], b[1..], n - 1);
    }
  }

  lemma FeedBelowFollow(c: string)
    requires c in {FEED_POST, FEED_REPOST, FEED_LIKE, GRAPH_BLOCK}
    ensures Less(c, GRAPH_FOLLOW) && !(c <= GRAPH_FOLLOW)
  {
    var n := if c == GRAPH_BLOCK then 15 else 9;
    LessAfterCommonPrefix(c, GRAPH_FOLLOW, n);
  }

  /** So an account that has ever posted, reposted, liked or blocked contributes no follow at all. */
  lemma FeedActivityHidesFollows(r: Repo, i: nat)
    requires Sorted(r) && NormalCollections(r)
    requires i < |r.entries| && r.entries[i].nsid in {FEED_POST, FEED_REPOST, FEED_LIKE, GRAPH_BLOCK}
    ensures forall item <- Emitted(r) :: !item.data.GraphFollow?
  {
    var c := r.entries[i].nsid;
    assert r.entries[i] in r.entries;
    FeedBelowFollow(c);
    ExtensionStaysLess(c, r.entries[i].key, GRAPH_FOLLOW);
    EarlierCollectionHidesFollows(r, i);
  }

  ghost predicate OnlyProfilesBefore(es: seq<Entry>, i: nat)
    requires i <= |es|
  {
    forall j :: 0 <= j < i ==> GoodProfile(es[j])
  }

  lemma FirstFollow(es: seq<Entry>, k: nat) returns (i: nat)
    requires k < |es| && GoodFollow(es[k])
    ensures i <= k && GoodFollow(es[i]) && forall j :: 0 <= j < i ==> !GoodFollow(es[j])
  {
    i := 0;
    while !GoodFollow(es[i])
      invariant i <= k && forall j :: 0 <= j < i ==> !GoodFollow(es[j])
      decreases k - i
    {
      i := i + 1;
    }
  }

  /** Follows are emitted exactly when some readable follow is preceded by readable profiles only. */
  lemma FollowsEmittedIff(r: Repo)
    requires !r.badDid
    ensures (exists item <- Emitted(r) :: item.data.GraphFollow?)
       <==> exists i :: 0 <= i < |r.entries| && GoodFollow(r.entries[i]) && OnlyProfilesBefore(r.entries, i)
  {
    var n := GoodPrefix(r.entries);
    if item :| item in Emitted(r) && item.data.GraphFollow? {
      var k :| 0 <= k < n && Emitted(r)[k] == item;
      assert Good(r.entries[k]);
      var i := FirstFollow(r.entries, k);
      assert OnlyProfilesBefore(r.entries, i);
    }
    if i :| 0 <= i < |r.entries| && GoodFollow(r.entries[i]) && OnlyProfilesBefore(r.entries, i) {
      assert i < n;
      assert Emitted(r)[i] in Emitted(r);
    }
  }
}
