/** The variable part of the two GraphQL queries the client sends: which
    collection is asked for, and the pagination argument built from an
    optional cursor. The rest of each query is fixed template text. */
module Queries {
  import opened Wrappers

  /** The pagination argument of a first page: every request asks for
      100 items, `first: 100`. */
  const FirstPage: string := "first: 100"

  /** What comes between the page size and the cursor when a cursor is sent. */
  const AfterOpen: string := ", after: \""

  /** The two query shapes. The repository query is always rooted at an
      organization; the pull-request query names the owner and the repository.
      Both names are spliced into the query text verbatim. */
  datatype QueryKind =
    | Repositories(account: string)
    | PullRequests(account: string, repository: string)

  /** One query document, identified by its kind and its pagination argument. */
  datatype Query = Query(kind: QueryKind, pagination: string)

  /** JavaScript truthiness of a cursor: undefined, null and "" are falsy. */
  predicate Truthy(cursor: Option<string>)
  {
    cursor.Some? && cursor.value != ""
  }

  /** The cursor that actually reaches the server: a falsy cursor is dropped. */
  function Effective(cursor: Option<string>): Option<string>
  {
    if Truthy(cursor) then cursor else None
  }

  /** `first: 100`, followed by `, after: "<cursor>"` when the cursor is truthy. */
  function PaginationArg(cursor: Option<string>): (arg: string)
    ensures FirstPage <= arg
    ensures arg == FirstPage <==> !Truthy(cursor)
  {
    if Truthy(cursor) then FirstPage + AfterOpen + cursor.value + "\"" else FirstPage
  }

  /** Reads the cursor back out of a pagination argument, if it carries one. */
  function AfterCursor(arg: string): (cursor: Option<string>)
    ensures cursor.Some? ==> arg == FirstPage + AfterOpen + cursor.value + "\""
  {
    var n := |FirstPage + AfterOpen|;
    if |arg| > n && arg[..n] == FirstPage + AfterOpen && arg[|arg| - 1] == '"' then
      assert arg == arg[..n] + arg[n..|arg| - 1] + [arg[|arg| - 1]];
      Some(arg[n..|arg| - 1])
    else
      None
  }

  /** The pagination argument loses nothing but the falsy cursors: the cursor
      the server sees can always be read back from it. */
  lemma PaginationArgRoundTrip(cursor: Option<string>)
    ensures AfterCursor(PaginationArg(cursor)) == Effective(cursor)
  {
    if Truthy(cursor) {
      var arg := PaginationArg(cursor);
      var n := |FirstPage + AfterOpen|;
      assert arg[..n] == FirstPage + AfterOpen;
      assert arg[n..|arg| - 1] == cursor.value;
    }
  }

  /** Two cursors yield the same argument exactly when the server sees the same cursor. */
  lemma PaginationArgInjective(c1: Option<string>, c2: Option<string>)
    ensures PaginationArg(c1) == PaginationArg(c2) <==> Effective(c1) == Effective(c2)
  {
    PaginationArgRoundTrip(c1);
    PaginationArgRoundTrip(c2);
  }

  /** The query sent for one page of the given kind. */
  function QueryFor(kind: QueryKind, cursor: Option<string>): (q: Query)
    ensures q.kind == kind
    ensures AfterCursor(q.pagination) == Effective(cursor)
  {
    PaginationArgRoundTrip(cursor);
    Query(kind, PaginationArg(cursor))
  }

  /** Every request asks for the first 100 items, and it asks for exactly
      `first: 100`, with no `after`, if and only if its cursor is falsy; in
      particular the first request of every fetch is the first-page query. */
  lemma QueryForPageSize(kind: QueryKind, cursor: Option<string>)
    ensures FirstPage <= QueryFor(kind, cursor).pagination
    ensures QueryFor(kind, cursor).pagination == FirstPage <==> !Truthy(cursor)
    ensures QueryFor(kind, None).pagination == FirstPage
  {
  }
}
