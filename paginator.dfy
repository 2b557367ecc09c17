/** Cursor pagination over an abstract transport. The transport is a pure
    oracle from a query to a decoded response. The source fetches until the
    first page that fails or has no next page, with no ceiling; here every fetch carries a
    ghost page ceiling `limit` and requires that the chain of pages ends
    within it (`EndsWithin`). */
module Paginator {
  import opened Wrappers
  import opened Queries
  import opened Transport
  import opened Entities

  /** What a failed fetch throws: the server's `errors` list, passed on
      unchanged, or the TypeError of reading a connection from a body that
      has none. */
  datatype FetchError =
    | ApiErrors(errors: seq<ApiError>)
    | MissingConnection

  /** One request: send the query for `cursor`, judge the response, and read
      the connection out of its data. */
  function RequestPage<N>(transport: Query -> Response<Connection<N>>, kind: QueryKind,
                          cursor: Option<string>): (r: Result<Connection<N>, FetchError>)
    ensures var response := transport(QueryFor(kind, cursor));
      && (r.Err? <==> response.errors.Some? || response.data.None?)
      && (response.errors.Some? ==> r == Err(ApiErrors(response.errors.value)))
      && (response.errors.None? && response.data.None? ==> r == Err(MissingConnection))
      && (r.Ok? ==> Some(r.value) == response.data)
  {
    match Classify(transport(QueryFor(kind, cursor)))
    case Err(errors) => Err(ApiErrors(errors))
    case Ok(None) => Err(MissingConnection)
    case Ok(Some(page)) => Ok(page)
  }

  /** `edges.map(edge => f(edge.node))`. */
  function MapNodes<N, T>(edges: seq<Edge<N>>, f: N -> T): (items: seq<T>)
    ensures |items| == |edges|
    ensures forall i :: 0 <= i < |edges| ==> items[i] == f(edges[i].node)
  {
    seq(|edges|, i requires 0 <= i < |edges| => f(edges[i].node))
  }

  /** The page requested with `cursor` ends the fetch: it failed or it has no next page. */
  predicate Stops<N>(transport: Query -> Response<Connection<N>>, kind: QueryKind, cursor: Option<string>)
  {
    var r := RequestPage(transport, kind, cursor);
    r.Err? || !r.value.pageInfo.hasNextPage
  }

  /** The page requested with `cursor` succeeded, has a next page, and hands on `next`. */
  predicate Continues<N>(transport: Query -> Response<Connection<N>>, kind: QueryKind,
                         cursor: Option<string>, next: Option<string>)
  {
    var r := RequestPage(transport, kind, cursor);
    r.Ok? && r.value.pageInfo.hasNextPage && r.value.pageInfo.endCursor == next
  }

  /** Starting from `cursor`, the fetch stops within `limit` requests. */
  ghost predicate EndsWithin<N>(transport: Query -> Response<Connection<N>>, kind: QueryKind,
                                cursor: Option<string>, limit: nat)
    decreases limit
  {
    && limit > 0
    && match RequestPage(transport, kind, cursor)
       case Err(_) => true
       case Ok(page) =>
         !page.pageInfo.hasNextPage || EndsWithin(transport, kind, page.pageInfo.endCursor, limit - 1)
  }

  /** A falsy cursor is dropped, so a fetch from it is the fetch from the first page. */
  lemma FalsyCursorRestarts<N>(transport: Query -> Response<Connection<N>>, kind: QueryKind,
                               cursor: Option<string>, limit: nat)
    requires !Truthy(cursor)
    ensures RequestPage(transport, kind, cursor) == RequestPage(transport, kind, None)
    ensures EndsWithin(transport, kind, cursor, limit) == EndsWithin(transport, kind, None, limit)
  {
    assert QueryFor(kind, cursor) == QueryFor(kind, None);
  }

  /** Following a chain of continuing pages uses up one page of the ceiling per request. */
  lemma {:induction false} ChainDescends<N>(transport: Query -> Response<Connection<N>>, kind: QueryKind,
                                            chain: seq<Option<string>>, limit: nat)
    requires |chain| > 0
    requires forall i :: 0 <= i < |chain| - 1 ==> Continues(transport, kind, chain[i], chain[i + 1])
    requires EndsWithin(transport, kind, chain[0], limit)
    ensures limit >= |chain|
    ensures EndsWithin(transport, kind, chain[|chain| - 1], limit - (|chain| - 1))
    decreases |chain|
  {
    if |chain| > 1 {
      var rest := chain[1..];
      assert forall i :: 0 <= i < |rest| ==> rest[i] == chain[i + 1];
      assert Continues(transport, kind, chain[0], chain[1]);
      ChainDescends(transport, kind, rest, limit - 1);
    }
  }

  /** A fetch from the first page that reaches a page continuing with a
      falsy `endCursor` (null or "") comes back to the first page after
      `|chain|` requests, having used that much of any ceiling. */
  lemma RestartUsesCeiling<N>(transport: Query -> Response<Connection<N>>, kind: QueryKind,
                              chain: seq<Option<string>>, next: Option<string>, limit: nat)
    requires |chain| > 0 && chain[0] == None
    requires forall i :: 0 <= i < |chain| - 1 ==> Continues(transport, kind, chain[i], chain[i + 1])
    requires Continues(transport, kind, chain[|chain| - 1], next)
    requires !Truthy(next)
    ensures EndsWithin(transport, kind, None, limit) ==>
      limit > |chain| && EndsWithin(transport, kind, None, limit - |chain|)
  {
    if EndsWithin(transport, kind, None, limit) {
      var full := chain + [next];
      assert forall i :: 0 <= i < |full| - 1 ==> Continues(transport, kind, full[i], full[i + 1]) by {
        forall i | 0 <= i < |full| - 1
          ensures Continues(transport, kind, full[i], full[i + 1])
        {
          if i < |chain| - 1 {
            assert full[i] == chain[i] && full[i + 1] == chain[i + 1];
          } else {
            assert full[i] == chain[|chain| - 1] && full[i + 1] == next;
          }
        }
      }
      ChainDescends(transport, kind, full, limit);
      FalsyCursorRestarts(transport, kind, next, limit - |chain|);
    }
  }

  /** A page anywhere in the fetch that has a next page but a falsy
      `endCursor` makes the fetch from the first page end within no
      ceiling: the falsy cursor is dropped, the first page is asked for
      again, and the same pages follow for ever. */
  lemma {:induction false} FalsyEndCursorNeverEnds<N>(transport: Query -> Response<Connection<N>>,
                                                      kind: QueryKind, chain: seq<Option<string>>,
                                                      next: Option<string>, limit: nat)
    requires |chain| > 0 && chain[0] == None
    requires forall i :: 0 <= i < |chain| - 1 ==> Continues(transport, kind, chain[i], chain[i + 1])
    requires Continues(transport, kind, chain[|chain| - 1], next)
    requires !Truthy(next)
    ensures !EndsWithin(transport, kind, None, limit)
    decreases limit
  {
    RestartUsesCeiling(transport, kind, chain, next, limit);
    if limit > |chain| {
      FalsyEndCursorNeverEnds(transport, kind, chain, next, limit - |chain|);
    }
  }

  /** The recursive paginator shared by `getRepositories` and `getPullRequests`:
      fetch a page, map its nodes, and when `hasNextPage` is set, fetch the
      rest from `endCursor` and append it. A failure anywhere is the result. */
  function FetchAll<N, T>(transport: Query -> Response<Connection<N>>, kind: QueryKind,
                          cursor: Option<string>, ghost limit: nat, f: N -> T): Result<seq<T>, FetchError>
    requires EndsWithin(transport, kind, cursor, limit)
    decreases limit
  {
    match RequestPage(transport, kind, cursor)
    case Err(e) => Err(e)
    case Ok(page) =>
      var result := MapNodes(page.edges, f);
      if page.pageInfo.hasNextPage then
        match FetchAll(transport, kind, page.pageInfo.endCursor, limit - 1, f)
        case Err(e) => Err(e)
        case Ok(rest) => Ok(result + rest)
      else
        Ok(result)
  }

  // ---------------------------------------------------------------------
  // Specification: the run of requests, and what a run yields.
  // ---------------------------------------------------------------------

  /** `cursors` is a complete run: a request that stops the fetch is the
      last one, and a request that continues is followed by the request for
      its page's `endCursor`. */
  ghost predicate IsRun<N>(transport: Query -> Response<Connection<N>>, kind: QueryKind,
                           cursors: seq<Option<string>>)
    decreases |cursors|
  {
    && |cursors| > 0
    && if Stops(transport, kind, cursors[0]) then
         |cursors| == 1
       else
         && |cursors| > 1
         && Continues(transport, kind, cursors[0], cursors[1])
         && IsRun(transport, kind, cursors[1..])
  }

  /** Concatenation of a sequence of pages, in order. */
  function Flatten<T>(pages: seq<seq<T>>): seq<T>
  {
    if pages == [] then [] else pages[0] + Flatten(pages[1..])
  }

  function Sum(ns: seq<nat>): nat
  {
    if ns == [] then 0 else ns[0] + Sum(ns[1..])
  }

  /** The mapped nodes of the page requested with `cursor` (none if the request failed). */
  function ItemsAt<N, T>(transport: Query -> Response<Connection<N>>, kind: QueryKind,
                         cursor: Option<string>, f: N -> T): seq<T>
  {
    match RequestPage(transport, kind, cursor)
    case Ok(page) => MapNodes(page.edges, f)
    case Err(_) => []
  }

  /** The mapped items of each page, one list per request. */
  function PageItems<N, T>(transport: Query -> Response<Connection<N>>, kind: QueryKind,
                           cursors: seq<Option<string>>, f: N -> T): (pages: seq<seq<T>>)
    ensures |pages| == |cursors|
    ensures forall i :: 0 <= i < |cursors| ==> pages[i] == ItemsAt(transport, kind, cursors[i], f)
  {
    seq(|cursors|, i requires 0 <= i < |cursors| => ItemsAt(transport, kind, cursors[i], f))
  }

  /** The number of edges on each page, one count per request. */
  function EdgeCounts<N>(transport: Query -> Response<Connection<N>>, kind: QueryKind,
                         cursors: seq<Option<string>>): (counts: seq<nat>)
    ensures |counts| == |cursors|
    ensures forall i :: 0 <= i < |cursors| ==>
      counts[i] == match RequestPage(transport, kind, cursors[i]) case Ok(page) => |page.edges| case Err(_) => 0
  {
    seq(|cursors|, i requires 0 <= i < |cursors| =>
      match RequestPage(transport, kind, cursors[i]) case Ok(page) => |page.edges| case Err(_) => 0)
  }

  /** What a run yields: the last request's error if it failed (nothing else
      is kept), otherwise every page's mapped items, in order. */
  ghost function RunOutcome<N, T>(transport: Query -> Response<Connection<N>>, kind: QueryKind,
                                  cursors: seq<Option<string>>, f: N -> T): Result<seq<T>, FetchError>
    requires IsRun(transport, kind, cursors)
  {
    var last := RequestPage(transport, kind, cursors[|cursors| - 1]);
    if last.Err? then Err(last.error) else Ok(Flatten(PageItems(transport, kind, cursors, f)))
  }

  // ---------------------------------------------------------------------
  // Runs exist, are unique, and are what the paginator follows.
  // ---------------------------------------------------------------------

  /** A run read by index: it starts at its first cursor, each request but
      the last continues to the next cursor (its page has a next page and
      that page's `endCursor` is the next cursor), and the last request
      stops the fetch. */
  lemma {:induction false} RunChains<N>(transport: Query -> Response<Connection<N>>, kind: QueryKind,
                                        cursors: seq<Option<string>>)
    requires IsRun(transport, kind, cursors)
    ensures forall i :: 0 <= i < |cursors| - 1 ==> Continues(transport, kind, cursors[i], cursors[i + 1])
    ensures Stops(transport, kind, cursors[|cursors| - 1])
    decreases |cursors|
  {
    if |cursors| > 1 {
      var rest := cursors[1..];
      RunChains(transport, kind, rest);
      forall i | 1 <= i < |cursors| - 1
        ensures Continues(transport, kind, cursors[i], cursors[i + 1])
      {
        assert cursors[i] == rest[i - 1] && cursors[i + 1] == rest[i];
      }
      assert cursors[|cursors| - 1] == rest[|rest| - 1];
    }
  }

  /** The run a fetch from `cursor` performs: it starts at `cursor`, and has
      no more requests than the ceiling. */
  ghost function RunFrom<N>(transport: Query -> Response<Connection<N>>, kind: QueryKind,
                            cursor: Option<string>, limit: nat): (cursors: seq<Option<string>>)
    requires EndsWithin(transport, kind, cursor, limit)
    ensures IsRun(transport, kind, cursors)
    ensures cursors[0] == cursor && |cursors| <= limit
    decreases limit
  {
    if Stops(transport, kind, cursor) then
      [cursor]
    else
      var next := RequestPage(transport, kind, cursor).value.pageInfo.endCursor;
      var rest := RunFrom(transport, kind, next, limit - 1);
      assert ([cursor] + rest)[1..] == rest;
      [cursor] + rest
  }

  /** There is only one run from a given cursor: the next request is always
      decided by the page before it, and the run ends at the first page that
      stops it, so no later page is ever requested. */
  lemma {:induction false} RunUnique<N>(transport: Query -> Response<Connection<N>>, kind: QueryKind,
                                        a: seq<Option<string>>, b: seq<Option<string>>)
    requires IsRun(transport, kind, a) && IsRun(transport, kind, b)
    requires a[0] == b[0]
    ensures a == b
    decreases |a|
  {
    if !Stops(transport, kind, a[0]) {
      RunUnique(transport, kind, a[1..], b[1..]);
      assert a == [a[0]] + a[1..];
      assert b == [b[0]] + b[1..];
    }
  }

  /** A run of one request yields that request's error, or its page's items. */
  lemma RunOutcomeOfLast<N, T>(transport: Query -> Response<Connection<N>>, kind: QueryKind,
                               cursors: seq<Option<string>>, f: N -> T)
    requires IsRun(transport, kind, cursors) && Stops(transport, kind, cursors[0])
    ensures var r := RequestPage(transport, kind, cursors[0]);
      RunOutcome(transport, kind, cursors, f) == if r.Err? then Err(r.error) else Ok(MapNodes(r.value.edges, f))
  {
    assert |cursors| == 1;
    var r := RequestPage(transport, kind, cursors[0]);
    if r.Ok? {
      var pages := PageItems(transport, kind, cursors, f);
      assert pages[0] == MapNodes(r.value.edges, f);
      assert pages[1..] == [];
      assert Flatten(pages) == pages[0] + Flatten(pages[1..]);
      assert Flatten(pages) == pages[0];
    }
  }

  /** Dropping the first request drops the first page. */
  lemma PageItemsTail<N, T>(transport: Query -> Response<Connection<N>>, kind: QueryKind,
                            cursors: seq<Option<string>>, f: N -> T)
    requires |cursors| > 0
    ensures PageItems(transport, kind, cursors, f)[1..] == PageItems(transport, kind, cursors[1..], f)
  {
  }

  /** A run whose first request continues yields that page's items before
      whatever the rest of the run yields, or the rest's error. */
  lemma RunOutcomeOfStep<N, T>(transport: Query -> Response<Connection<N>>, kind: QueryKind,
                               cursors: seq<Option<string>>, f: N -> T)
    requires IsRun(transport, kind, cursors) && !Stops(transport, kind, cursors[0])
    ensures var items := MapNodes(RequestPage(transport, kind, cursors[0]).value.edges, f);
      RunOutcome(transport, kind, cursors, f) ==
        match RunOutcome(transport, kind, cursors[1..], f)
        case Err(e) => Err(e)
        case Ok(rest) => Ok(items + rest)
  {
    var rest := cursors[1..];
    assert cursors[|cursors| - 1] == rest[|rest| - 1];
    var pages := PageItems(transport, kind, cursors, f);
    PageItemsTail(transport, kind, cursors, f);
    assert pages[0] == MapNodes(RequestPage(transport, kind, cursors[0]).value.edges, f);
    assert Flatten(pages) == pages[0] + Flatten(PageItems(transport, kind, rest, f));
  }

  /** The paginator's result is exactly the outcome of the run it follows:
      the first error if a request fails, else the in-order concatenation of
      every page's mapped nodes. */
  lemma {:induction false} FetchAllFollowsRun<N, T>(transport: Query -> Response<Connection<N>>,
                                                    kind: QueryKind, cursors: seq<Option<string>>,
                                                    limit: nat, f: N -> T)
    requires IsRun(transport, kind, cursors)
    requires EndsWithin(transport, kind, cursors[0], limit)
    ensures FetchAll(transport, kind, cursors[0], limit, f) == RunOutcome(transport, kind, cursors, f)
    decreases limit
  {
    if Stops(transport, kind, cursors[0]) {
      RunOutcomeOfLast(transport, kind, cursors, f);
    } else {
      FetchAllFollowsRun(transport, kind, cursors[1..], limit - 1, f);
      RunOutcomeOfStep(transport, kind, cursors, f);
    }
  }

  /** Concatenating the pages keeps every item: the length is the sum of the edge counts. */
  lemma {:induction false} FlattenedLength<N, T>(transport: Query -> Response<Connection<N>>, kind: QueryKind,
                                                 cursors: seq<Option<string>>, f: N -> T)
    ensures |Flatten(PageItems(transport, kind, cursors, f))| == Sum(EdgeCounts(transport, kind, cursors))
    decreases |cursors|
  {
    if cursors != [] {
      var rest := cursors[1..];
      var pages := PageItems(transport, kind, cursors, f);
      var counts := EdgeCounts(transport, kind, cursors);
      assert pages[1..] == PageItems(transport, kind, rest, f);
      assert counts[1..] == EdgeCounts(transport, kind, rest);
      FlattenedLength(transport, kind, rest, f);
    }
  }

  /** A successful run returns as many items as its pages hold edges in
      all: nothing is dropped, duplicated or added. */
  lemma RunItemCount<N, T>(transport: Query -> Response<Connection<N>>, kind: QueryKind,
                           cursors: seq<Option<string>>, f: N -> T)
    requires IsRun(transport, kind, cursors)
    requires RunOutcome(transport, kind, cursors, f).Ok?
    ensures |RunOutcome(transport, kind, cursors, f).value| == Sum(EdgeCounts(transport, kind, cursors))
  {
    FlattenedLength(transport, kind, cursors, f);
  }

  /** The fetch depends on the transport only through the run's queries: a
      transport that answers those queries alike gives the same run and the
      same result, whatever it answers elsewhere. */
  lemma {:induction false} FetchAllConsultsOnlyRun<N, T>(t1: Query -> Response<Connection<N>>,
                                                         t2: Query -> Response<Connection<N>>,
                                                         kind: QueryKind, cursors: seq<Option<string>>,
                                                         limit: nat, f: N -> T)
    requires IsRun(t1, kind, cursors) && EndsWithin(t1, kind, cursors[0], limit)
    requires forall i :: 0 <= i < |cursors| ==> t1(QueryFor(kind, cursors[i])) == t2(QueryFor(kind, cursors[i]))
    ensures IsRun(t2, kind, cursors) && EndsWithin(t2, kind, cursors[0], limit)
    ensures FetchAll(t2, kind, cursors[0], limit, f) == FetchAll(t1, kind, cursors[0], limit, f)
    decreases limit
  {
    assert t1(QueryFor(kind, cursors[0])) == t2(QueryFor(kind, cursors[0]));
    assert RequestPage(t2, kind, cursors[0]) == RequestPage(t1, kind, cursors[0]);
    if !Stops(t1, kind, cursors[0]) {
      var rest := cursors[1..];
      forall i | 0 <= i < |rest|
        ensures t1(QueryFor(kind, rest[i])) == t2(QueryFor(kind, rest[i]))
      {
        assert rest[i] == cursors[i + 1];
      }
      FetchAllConsultsOnlyRun(t1, t2, kind, rest, limit - 1, f);
    }
  }

  /** Two pages, the first with a next page and the second without: exactly
      two requests, the first without a cursor and the second with the first
      page's `endCursor`, and the result is both pages' items in order. */
  lemma TwoPageFetch<N, T>(transport: Query -> Response<Connection<N>>, kind: QueryKind,
                           limit: nat, f: N -> T)
    requires EndsWithin(transport, kind, None, limit)
    requires RequestPage(transport, kind, None).Ok?
    requires RequestPage(transport, kind, None).value.pageInfo.hasNextPage
    requires var next := RequestPage(transport, kind, None).value.pageInfo.endCursor;
      RequestPage(transport, kind, next).Ok? && !RequestPage(transport, kind, next).value.pageInfo.hasNextPage
    ensures var first := RequestPage(transport, kind, None).value;
      var second := RequestPage(transport, kind, first.pageInfo.endCursor).value;
      && RunFrom(transport, kind, None, limit) == [None, first.pageInfo.endCursor]
      && FetchAll(transport, kind, None, limit, f) == Ok(MapNodes(first.edges, f) + MapNodes(second.edges, f))
  {
    var first := RequestPage(transport, kind, None).value;
    var second := RequestPage(transport, kind, first.pageInfo.endCursor).value;
    var run := [None, first.pageInfo.endCursor];
    assert run[1..] == [first.pageInfo.endCursor];
    assert IsRun(transport, kind, run);
    RunUnique(transport, kind, RunFrom(transport, kind, None, limit), run);
    FetchAllFollowsRun(transport, kind, run, limit, f);
    var pages := PageItems(transport, kind, run, f);
    assert [first.pageInfo.endCursor][1..] == [];
    assert PageItems(transport, kind, run[1..], f) == [MapNodes(second.edges, f)];
    assert pages == [MapNodes(first.edges, f), MapNodes(second.edges, f)];
    assert Flatten(pages) == pages[0] + (pages[1] + Flatten([]));
  }
}
