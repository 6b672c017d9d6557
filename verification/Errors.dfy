/** Go's error values as the backfill code tells them apart: by dynamic type, by text and by wrapping. */
module Errors {

  datatype Option<+T> = None | Some(value: T)

  /** Xrpc is `*xrpc.Error`; `reset` is the rate-limit hint, already turned into a time left in nanoseconds.
      Wrap is fmt.Errorf with %w, Join is errors.Join. */
  datatype GoError =
    | Plain(text: string)
    | Wrap(text: string, inner: GoError)
    | Join(text: string, parts: seq<GoError>)
    | Xrpc(text: string, status: int, reset: Option<int>, wrapped: Option<GoError>)

  const STATUS_BAD_REQUEST := 400
  const STATUS_TOO_MANY_REQUESTS := 429

  const REPO_TAKEDOWN := "RepoTakendown"
  const REPO_DEACTIVATED := "RepoDeactivated"
  const REPO_NOT_FOUND := "XRPC ERROR 400: NotFound: Repo not found"

  /** errors.Unwrap: a joined error has no single inner error. */
  function Unwrap(e: GoError): Option<GoError> {
    match e
    case Wrap(_, inner) => Some(inner)
    case Xrpc(_, _, _, wrapped) => wrapped
    case _ => None
  }

  /** errors.As for `*xrpc.Error`: the first one met, depth first. */
  function FindXrpc(e: GoError): (r: Option<GoError>)
    ensures r.Some? ==> r.value.Xrpc?
    decreases e, 0
  {
    match e
    case Plain(_) => None
    case Wrap(_, inner) => FindXrpc(inner)
    case Join(_, parts) => FindXrpcIn(parts)
    case Xrpc(_, _, _, _) => Some(e)
  }

  function FindXrpcIn(es: seq<GoError>): (r: Option<GoError>)
    ensures r.Some? ==> r.value.Xrpc?
    decreases es, 1
  {
    if es == [] then None
    else
      var first := FindXrpc(es[0]);
      if first.Some? then first else FindXrpcIn(es[1..])
  }

  /** Errors about repositories that are taken down, deactivated or missing. */
  predicate SuppressATProtoErr(e: GoError) {
    if e.text == REPO_TAKEDOWN || e.text == REPO_DEACTIVATED || e.text == REPO_NOT_FOUND then true
    else
      var inner := Unwrap(e);
      if inner.None? then false
      else
        var api := FindXrpc(inner.value);
        && api.Some?
        && api.value.status == STATUS_BAD_REQUEST
        && (api.value.text == REPO_TAKEDOWN || api.value.text == REPO_DEACTIVATED)
  }

  // ---- The same by the order in which errors are met

  /** An error and all it wraps, in the order errors.As meets them. */
  function Visited(e: GoError): (met: seq<GoError>)
    ensures met != [] && met[0] == e
    decreases e, 0
  {
    match e
    case Plain(_) => [e]
    case Wrap(_, inner) => [e] + Visited(inner)
    case Join(_, parts) => [e] + VisitedAll(parts)
    case Xrpc(_, _, _, wrapped) => if wrapped.None? then [e] else [e] + Visited(wrapped.value)
  }

  function VisitedAll(es: seq<GoError>): seq<GoError>
    decreases es, 1
  {
    if es == [] then [] else Visited(es[0]) + VisitedAll(es[1..])
  }

  function FirstXrpc(met: seq<GoError>): (api: Option<GoError>)
    ensures api.Some? ==> api.value.Xrpc?
  {
    if met == [] then None else if met[0].Xrpc? then Some(met[0]) else FirstXrpc(met[1..])
  }

  lemma {:induction false} FirstInConcat(a: seq<GoError>, b: seq<GoError>)
    ensures FirstXrpc(a + b) == if FirstXrpc(a).Some? then FirstXrpc(a) else FirstXrpc(b)
  {
    if a == [] {
      assert a + b == b;
    } else {
      assert (a + b)[1..] == a[1..] + b;
      FirstInConcat(a[1..], b);
    }
  }

  /** errors.As finds the first API error met. */
  lemma {:induction false} AsFindsFirst(e: GoError)
    ensures FindXrpc(e) == FirstXrpc(Visited(e))
    decreases e, 0
  {
    match e
    case Plain(_) =>
    case Wrap(_, inner) =>
      AsFindsFirst(inner);
      FirstInConcat([e], Visited(inner));
    case Join(_, parts) =>
      AsFindsFirstIn(parts);
      FirstInConcat([e], VisitedAll(parts));
    case Xrpc(_, _, _, _) =>
  }

  lemma {:induction false} AsFindsFirstIn(es: seq<GoError>)
    ensures FindXrpcIn(es) == FirstXrpc(VisitedAll(es))
    decreases es, 1
  {
    if es == [] {
    } else {
      AsFindsFirst(es[0]);
      AsFindsFirstIn(es[1..]);
      FirstInConcat(Visited(es[0]), VisitedAll(es[1..]));
    }
  }

  /** The first API error among what an error wraps has status 400 and is about a repository taken down or
      deactivated. */
  predicate WrapsGoneRepo(e: GoError) {
    var inner := if e.Wrap? then Some(e.inner) else if e.Xrpc? then e.wrapped else None;
    && inner.Some?
    && var api := FirstXrpc(Visited(inner.value));
       api.Some? && api.value.status == 400 && api.value.text in {"RepoTakendown", "RepoDeactivated"}
  }

  /** Exactly which errors are suppressed. */
  lemma SuppressedIff(e: GoError)
    ensures SuppressATProtoErr(e)
       <==> || e.text in {"RepoTakendown", "RepoDeactivated", "XRPC ERROR 400: NotFound: Repo not found"}
            || WrapsGoneRepo(e)
  {
    if Unwrap(e).Some? { AsFindsFirst(Unwrap(e).value); }
  }
}
