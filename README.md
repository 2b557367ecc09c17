# GitHub pull-request analyzer: the pagination core

This project models the data-acquisition layer of `github-pr-analyzer`
(`main.js`) in Dafny and proves what it does. The client sends two GraphQL
queries: an organization's repositories, and one repository's pull
requests. Both are cursor-paginated with 100 items per page. The client
walks each collection page by page and maps every edge's node into a
`Repository` or a `PullRequest`. Then `main` attaches each repository's pull
requests to it, one repository after another.

The network is abstracted into a transport oracle. It is a pure function
from a `Query` (the query kind plus its pagination argument) to an
already-decoded `Response`: an optional top-level `errors` list and the
optional connection found at the path the query asks for.

Modules, one per part of `main.js`:

- `Wrappers`: `Option` and `Result`.
- `Queries`: the pagination argument (`first: 100`, then `, after: "<cursor>"`
  when the cursor is truthy), the query kinds, and `AfterCursor`, which reads
  the cursor back out of an argument.
- `Transport`: the decoded response, `pageInfo`, edges and connections, and
  `Classify`, the `errors`/`data` decision of the `end` handler.
- `Entities`: repository and pull-request nodes, and the `Repository` and
  `PullRequest` values built from them.
- `Paginator`: one page request (`RequestPage`), the shared recursive
  paginator `FetchAll`, and its specification. A *run* is the list of
  cursors requested: the first is the starting cursor, each later one is the
  `endCursor` of the page before it, and the last is the first page that
  fails or has `hasNextPage` false. `RunOutcome` is what a run yields.
- `Github`: `GetRepositories` and `GetPullRequests`, the two instances of
  the paginator.
- `Synchronize`: the loop of `main`, both as a value (`PopulateAll`) and as
  an in-place method on an array of repositories (`AttachPullRequests`),
  and the whole run (`Run`).

Termination assumption: the source has no page ceiling, and its recursion
stops at the first page that fails or has no next page. Every fetch in the model
carries a ghost page ceiling `limit`. It requires `EndsWithin`: the chain of
pages from its cursor stops within `limit` requests. `RunFrom` proves that
such a chain then has at most `limit` requests.

## Model

| member | source | states |
|---|---|---|
| `Queries.PaginationArg` | main.js:72-75 | the argument always begins with `first: 100`, and it is exactly `first: 100` if and only if the cursor is falsy (absent, null or the empty string) |
| `Queries.PaginationArgRoundTrip` | main.js:111-114 | the cursor the server receives can be read back from the argument: a truthy cursor verbatim, nothing for a falsy one |
| `Queries.PaginationArgInjective` | main.js:72-75 | two cursors give the same argument exactly when they are the same truthy cursor or both falsy |
| `Queries.QueryFor` | main.js:77-79 | the query sent for a page keeps its kind and carries the effective cursor in its pagination argument |
| `Queries.QueryForPageSize` | main.js:72-75 | every request asks for `first: 100`; it asks for exactly `first: 100`, with no `after`, if and only if its cursor is falsy, so the first request of every fetch is the first-page query |
| `Transport.Classify` | main.js:55-61 | a response fails if and only if it has an `errors` field (even an empty list), failing with exactly that list; otherwise the result is exactly `data` |
| `Transport.ErrorsDiscardData` | main.js:57-58 | when `errors` is present, whatever `data` came with it makes no difference to the outcome |
| `Paginator.RequestPage` | main.js:95-97 | one request fails with the server's errors unchanged, or with `MissingConnection` when the body has neither errors nor a connection at the queried path; otherwise it yields that connection |
| `Paginator.FetchAll` | main.js:95-103 | the recursive paginator shared by both fetches; it has no `ensures` of its own, and `Paginator.FetchAllFollowsRun` states what it returns |
| `Paginator.RunChains` | main.js:100-101 | in a run, each request but the last returned a page with `hasNextPage` set whose `endCursor` is the next request's cursor, and the last request failed or returned a page without a next page |
| `Paginator.RunFrom` | main.js:100-102 | from a cursor whose chain ends within the ceiling there is a run that starts at that cursor and makes at most that many requests |
| `Paginator.RunUnique` | main.js:100-103 | there is only one run from a given cursor: each request's cursor is fixed by the page before it, and the run stops at the first page that fails or has no next page, so no later page is requested |
| `Paginator.FetchAllFollowsRun` | main.js:95-103 | the paginator's result is its run's outcome: the failing page's error and no partial list, or the in-order concatenation of every page's mapped nodes |
| `Paginator.RunOutcomeOfStep` | main.js:100-101 | when a page has a next page, its items come before everything the rest of the run yields, and an error later in the run replaces the whole result |
| `Paginator.ChainDescends` | main.js:100-101 | each continuing page of a fetch uses up one request of the ceiling: a chain of continuing pages is no longer than the ceiling, and the fetch from its last cursor ends within what is left |
| `Paginator.FalsyEndCursorNeverEnds` | main.js:100-101 | if any page reached from the first page continues with a null or empty `endCursor`, the fetch from the first page ends within no ceiling: the falsy cursor is dropped and the same pages are asked for again |
| `Paginator.RunItemCount` | main.js:97-101 | the number of items a successful run returns equals the sum of its pages' edge counts |
| `Paginator.FetchAllConsultsOnlyRun` | main.js:100-103 | the result depends on the transport only through the run's queries: two transports that answer those alike give the same run and the same result |
| `Paginator.TwoPageFetch` | main.js:100-103 | with a first page that has a next page and a second that does not, exactly two requests are made, the first without a cursor and the second with the first page's `endCursor`, and the result is both pages' items in order |
| `Entities.RepositoryMappingInverse` | main.js:8-12 | a repository made from a node takes its `id` from the node's `id` and its `name` from the node's `name`, and starts with an empty pull-request list; every repository without pull requests is made from its own node |
| `Entities.ToRepository` | main.js:8-12 | `Object.assign(new Repository(), node)`; no `ensures` of its own, characterised by `Entities.RepositoryMappingInverse` |
| `Entities.PullRequestMappingInverse` | main.js:155 | each of the 16 fields of a pull request equals the node's field of the same name, `author` included (null stays null); nothing is dropped, added or normalised |
| `Entities.ToPullRequest` | main.js:155 | `Object.assign(new PullRequest(), node)`; no `ensures` of its own, characterised by `Entities.PullRequestMappingInverse` |
| `Github.GetRepositories` | main.js:98 | every repository returned has an empty pull-request list |
| `Github.FetchedRepositoriesAreNew` | main.js:98-103 | repositories from every page, the later pages included, have an empty pull-request list |
| `Github.GetRepositoriesFollowsRun` | main.js:70-107 | `getRepositories` returns the outcome of the one run of repository queries from its cursor |
| `Github.GetPullRequests` | main.js:109-164 | `getPullRequests`; no `ensures` of its own, characterised by `Github.GetPullRequestsFollowsRun` |
| `Github.GetPullRequestsFollowsRun` | main.js:109-164 | `getPullRequests` returns the outcome of the one run of pull-request queries for that repository from its cursor |
| `Synchronize.PopulateAllAttaches` | main.js:176-179 | the loop keeps the list's length and order, changes no `id` or `name`, gives repository i the pull requests fetched for repository i's name, and succeeds if and only if every fetch is reached, ends and succeeds |
| `Synchronize.PopulateAllSucceeds` | main.js:176-177 | when every fetch succeeds, the loop's result is exactly the list with each repository holding its own fetched pull requests |
| `Synchronize.PopulateAllFails` | main.js:176-181 | when some fetch fails, the loop's result is the error of the first one that fails; the fetches after it are not consulted |
| `Synchronize.FirstFailureShieldsLater` | main.js:176-181 | a failing fetch ends the loop with its error whatever the later repositories' fetches would do, even never end: the loop's condition asks nothing of them |
| `Synchronize.PopulateAll` | main.js:176-179 | the loop of `main` as a value; no `ensures` of its own, characterised by `Synchronize.PopulateAllAttaches`, `Synchronize.PopulateAllSucceeds` and `Synchronize.PopulateAllFails` |
| `Synchronize.AttachPullRequests` | main.js:176-179 | in place on the array, in index order: on success the array equals the loop's value; on failure the repositories before the failing one hold their pull requests, and it and the later ones are unchanged |
| `Synchronize.Run` | main.js:167-183 | `main` ends with the repository fetch's error, or with the loop's outcome over the fetched repositories |

## Left out

- The HTTPS request: options, headers, `https.request`, chunk accumulation, `req.write` and `req.end`. This is network I/O, replaced by the transport oracle.
- `JSON.parse`: responses arrive decoded. A body that is not JSON makes `JSON.parse` throw inside the `end` callback, outside the promise; that path is not modelled.
- The `res.on('error')` handler: it reads an undefined variable `e`, so it raises a ReferenceError instead of rejecting with a message.
- The GraphQL query text: only its kind, the account and repository names (spliced in verbatim, without escaping) and the pagination argument are modelled.
- Promise and `async`/`await` sequencing: calls are modelled as sequential function calls.
- Loading `config.json` (the token and the account name become parameters), and the `console.log` and `console.error` output of `main`.
- Unbounded recursion: the ghost page ceiling `limit` and `EndsWithin` stand in for a fetch that eventually reaches a page that fails or has no next page. `Run` asks for this only of the repository query and of the pull-request fetches the loop reaches: a fetch after the first failing one is never made, so nothing is asked of it (`Synchronize.FirstFailureShieldsLater`). The ceiling also rules out a client-side loop: a page anywhere in a fetch with `hasNextPage` set and a null or empty `endCursor` makes the next request the first-page request again, because a falsy cursor is dropped, so the fetch restarts for ever. `Paginator.FalsyEndCursorNeverEnds` proves that no ceiling admits that input.
- Object identity: a repository is a value in an array slot, so aliasing between repository objects is not modelled. The source never shares them.
- A decoded body without a usable connection (no `data`, or a null `organization` or `repository`) is one error, `MissingConnection`; the source throws a TypeError there, which the `catch` rethrows unchanged.
- Null parts of a page: the types rule out a null `edges` list, a null edge and a null `node`. In the source a null `edges` list or a null edge throws a TypeError, which the `catch` rethrows. A null `node` throws nothing: `Object.assign(new Repository, null)` yields a repository whose `id` and `name` are undefined, and `main` then asks for the pull requests of a repository named "undefined".
- The cache store, a user-versus-organization query root, `authorLogin` normalisation and the count reports: the source file has none of these.
