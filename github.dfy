/** The two paginating methods of the GitHub client: the organization's
    repositories, and the pull requests of one repository. Both start
    without a cursor when called with none. */
module Github {
  import opened Wrappers
  import opened Queries
  import opened Transport
  import opened Entities
  import opened Paginator

  /** `getRepositories(githubAccount, endCursor)`: the organization's
      repositories in page order, each new and without pull requests. */
  function GetRepositories(transport: Query -> Response<Connection<RepositoryNode>>, account: string,
                           endCursor: Option<string>, ghost limit: nat): (r: Result<seq<Repository>, FetchError>)
    requires EndsWithin(transport, Repositories(account), endCursor, limit)
    ensures r.Ok? ==> forall i :: 0 <= i < |r.value| ==> r.value[i].pullRequests == []
  {
    FetchedRepositoriesAreNew(transport, account, endCursor, limit);
    FetchAll(transport, Repositories(account), endCursor, limit, ToRepository)
  }

  /** `getPullRequests(githubAccount, repositoryName, endCursor)`: the
      repository's pull requests in page order, each a copy of its node. */
  function GetPullRequests(transport: Query -> Response<Connection<PullRequestNode>>, account: string,
                           repository: string, endCursor: Option<string>,
                           ghost limit: nat): Result<seq<PullRequest>, FetchError>
    requires EndsWithin(transport, PullRequests(account, repository), endCursor, limit)
  {
    FetchAll(transport, PullRequests(account, repository), endCursor, limit, ToPullRequest)
  }

  /** The repositories fetched are the outcome of the one run of repository
      queries from `endCursor`: the first error, or every page's nodes made
      into repositories, in order. */
  lemma GetRepositoriesFollowsRun(transport: Query -> Response<Connection<RepositoryNode>>, account: string,
                                  endCursor: Option<string>, limit: nat)
    requires EndsWithin(transport, Repositories(account), endCursor, limit)
    ensures GetRepositories(transport, account, endCursor, limit)
            == RunOutcome(transport, Repositories(account),
                          RunFrom(transport, Repositories(account), endCursor, limit), ToRepository)
  {
    FetchAllFollowsRun(transport, Repositories(account),
                       RunFrom(transport, Repositories(account), endCursor, limit), limit, ToRepository);
  }

  /** The pull requests fetched are the outcome of the one run of
      pull-request queries from `endCursor`: the first error, or every page's
      nodes copied into pull requests, in order. */
  lemma GetPullRequestsFollowsRun(transport: Query -> Response<Connection<PullRequestNode>>, account: string,
                                  repository: string, endCursor: Option<string>, limit: nat)
    requires EndsWithin(transport, PullRequests(account, repository), endCursor, limit)
    ensures GetPullRequests(transport, account, repository, endCursor, limit)
            == RunOutcome(transport, PullRequests(account, repository),
                          RunFrom(transport, PullRequests(account, repository), endCursor, limit),
                          ToPullRequest)
  {
    FetchAllFollowsRun(transport, PullRequests(account, repository),
                       RunFrom(transport, PullRequests(account, repository), endCursor, limit),
                       limit, ToPullRequest);
  }

  /** Each repository a fetch returns was just made from its node, so its
      pull-request list is still empty. */
  lemma {:induction false} FetchedRepositoriesAreNew(transport: Query -> Response<Connection<RepositoryNode>>,
                                                     account: string, cursor: Option<string>, limit: nat)
    requires EndsWithin(transport, Repositories(account), cursor, limit)
    ensures var r := FetchAll(transport, Repositories(account), cursor, limit, ToRepository);
      r.Ok? ==> forall i :: 0 <= i < |r.value| ==> r.value[i].pullRequests == []
    decreases limit
  {
    var page := RequestPage(transport, Repositories(account), cursor);
    if page.Ok? && page.value.pageInfo.hasNextPage {
      var next := page.value.pageInfo.endCursor;
      FetchedRepositoriesAreNew(transport, account, next, limit - 1);
      var items := MapNodes(page.value.edges, ToRepository);
      match FetchAll(transport, Repositories(account), next, limit - 1, ToRepository)
      case Err(_) =>
      case Ok(rest) =>
        assert FetchAll(transport, Repositories(account), cursor, limit, ToRepository) == Ok(items + rest);
        forall i | 0 <= i < |items + rest|
          ensures (items + rest)[i].pullRequests == []
        {
          if i >= |items| {
            assert (items + rest)[i] == rest[i - |items|];
          }
        }
    }
  }
}
