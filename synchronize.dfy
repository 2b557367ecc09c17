/** The `main` routine: fetch the organization's repositories, then, one
    repository at a time and in order, fetch its pull requests and attach
    them to it. The first failure ends the run; `main` catches and logs it. */
module Synchronize {
  import opened Wrappers
  import opened Queries
  import opened Transport
  import opened Entities
  import opened Paginator
  import opened Github

  /** The pull-request fetch for `repository` stops within `limit` pages and succeeds. */
  ghost predicate FetchSucceeds(transport: Query -> Response<Connection<PullRequestNode>>, account: string,
                                repository: Repository, limit: nat)
  {
    && EndsWithin(transport, PullRequests(account, repository.name), None, limit)
    && GetPullRequests(transport, account, repository.name, None, limit).Ok?
  }

  /** Every pull-request fetch the loop reaches stops within `limit` pages:
      the fetch for repository i is made only when every earlier one
      succeeded, so nothing is asked of the fetches after a failure. */
  ghost predicate PullRequestsEndWithin(transport: Query -> Response<Connection<PullRequestNode>>, account: string,
                                        repositories: seq<Repository>, limit: nat)
  {
    forall i :: 0 <= i < |repositories| ==>
      (forall j :: 0 <= j < i ==> FetchSucceeds(transport, account, repositories[j], limit)) ==>
      EndsWithin(transport, PullRequests(account, repositories[i].name), None, limit)
  }

  /** Repository `k` is the first whose pull-request fetch fails. */
  ghost predicate FirstFailureAt(transport: Query -> Response<Connection<PullRequestNode>>, account: string,
                                 repositories: seq<Repository>, limit: nat, k: int)
  {
    && 0 <= k < |repositories|
    && (forall j :: 0 <= j < k ==> FetchSucceeds(transport, account, repositories[j], limit))
    && EndsWithin(transport, PullRequests(account, repositories[k].name), None, limit)
    && GetPullRequests(transport, account, repositories[k].name, None, limit).Err?
  }

  /** Once the first fetch has succeeded, the rest of the list meets the
      same condition. */
  lemma RestEndsWithin(transport: Query -> Response<Connection<PullRequestNode>>, account: string,
                       repositories: seq<Repository>, limit: nat)
    requires |repositories| > 0
    requires PullRequestsEndWithin(transport, account, repositories, limit)
    requires FetchSucceeds(transport, account, repositories[0], limit)
    ensures PullRequestsEndWithin(transport, account, repositories[1..], limit)
  {
    var rest := repositories[1..];
    forall i | 0 <= i < |rest| && (forall j :: 0 <= j < i ==> FetchSucceeds(transport, account, rest[j], limit))
      ensures EndsWithin(transport, PullRequests(account, rest[i].name), None, limit)
    {
      forall j | 0 <= j < i + 1
        ensures FetchSucceeds(transport, account, repositories[j], limit)
      {
        if j > 0 {
          assert repositories[j] == rest[j - 1];
        }
      }
      assert rest[i] == repositories[i + 1];
    }
  }

  /** `after` is `before` with the pull requests fetched for its name
      attached, and nothing else changed. */
  ghost predicate AttachedTo(transport: Query -> Response<Connection<PullRequestNode>>, account: string,
                             limit: nat, before: Repository, after: Repository)
  {
    && EndsWithin(transport, PullRequests(account, before.name), None, limit)
    && GetPullRequests(transport, account, before.name, None, limit) == Ok(after.pullRequests)
    && after == before.(pullRequests := after.pullRequests)
  }

  /** What the loop of `main` makes of a repository list, as a value: each
      repository in turn gets its fetched pull requests, and the first
      failing fetch ends it with that fetch's error. */
  ghost function PopulateAll(transport: Query -> Response<Connection<PullRequestNode>>, account: string,
                             repositories: seq<Repository>, limit: nat): Result<seq<Repository>, FetchError>
    requires PullRequestsEndWithin(transport, account, repositories, limit)
    decreases |repositories|
  {
    if repositories == [] then
      Ok([])
    else
      var rest := repositories[1..];
      match GetPullRequests(transport, account, repositories[0].name, None, limit)
      case Err(e) => Err(e)
      case Ok(prs) =>
        RestEndsWithin(transport, account, repositories, limit);
        match PopulateAll(transport, account, rest, limit)
        case Err(e) => Err(e)
        case Ok(populated) => Ok([repositories[0].(pullRequests := prs)] + populated)
  }

  /** The loop keeps the list's length and order and gives repository i the
      pull requests fetched for repository i's name, changing nothing else;
      it succeeds exactly when every fetch does (`PopulateAllFails` gives the
      error otherwise). */
  lemma {:induction false} PopulateAllAttaches(transport: Query -> Response<Connection<PullRequestNode>>,
                                               account: string, repositories: seq<Repository>, limit: nat)
    requires PullRequestsEndWithin(transport, account, repositories, limit)
    ensures var r := PopulateAll(transport, account, repositories, limit);
      && (r.Ok? <==> forall i :: 0 <= i < |repositories| ==> FetchSucceeds(transport, account, repositories[i], limit))
      && (r.Ok? ==> |r.value| == |repositories|)
      && (r.Ok? ==> forall i :: 0 <= i < |repositories| ==>
                      AttachedTo(transport, account, limit, repositories[i], r.value[i]))
    decreases |repositories|
  {
    if repositories != [] {
      var rest := repositories[1..];
      var head := GetPullRequests(transport, account, repositories[0].name, None, limit);
      if head.Ok? {
        assert FetchSucceeds(transport, account, repositories[0], limit);
        assert forall i :: 0 <= i < |rest| ==> rest[i] == repositories[i + 1];
        RestEndsWithin(transport, account, repositories, limit);
        PopulateAllAttaches(transport, account, rest, limit);
        var tail := PopulateAll(transport, account, rest, limit);
        if tail.Ok? {
          var r := [repositories[0].(pullRequests := head.value)] + tail.value;
          assert forall i :: 1 <= i < |repositories| ==> r[i] == tail.value[i - 1];
        }
      }
    }
  }

  /** A list whose fetches all succeed populates to exactly the list holding them. */
  lemma PopulateAllSucceeds(transport: Query -> Response<Connection<PullRequestNode>>, account: string,
                            before: seq<Repository>, after: seq<Repository>, limit: nat)
    requires PullRequestsEndWithin(transport, account, before, limit)
    requires |after| == |before|
    requires forall j :: 0 <= j < |before| ==> AttachedTo(transport, account, limit, before[j], after[j])
    ensures PopulateAll(transport, account, before, limit) == Ok(after)
  {
    PopulateAllAttaches(transport, account, before, limit);
    var r := PopulateAll(transport, account, before, limit);
    assert r.Ok? by {
      forall j | 0 <= j < |before|
        ensures FetchSucceeds(transport, account, before[j], limit)
      {
        assert AttachedTo(transport, account, limit, before[j], after[j]);
      }
    }
    forall j | 0 <= j < |before|
      ensures r.value[j] == after[j]
    {
      assert AttachedTo(transport, account, limit, before[j], after[j]);
    }
    assert r.value == after;
  }

  /** A list with a failing fetch populates to the first failure's error. */
  lemma {:induction false} PopulateAllFails(transport: Query -> Response<Connection<PullRequestNode>>,
                                            account: string, before: seq<Repository>, limit: nat, k: nat)
    requires PullRequestsEndWithin(transport, account, before, limit)
    requires FirstFailureAt(transport, account, before, limit, k)
    ensures PopulateAll(transport, account, before, limit)
            == Err(GetPullRequests(transport, account, before[k].name, None, limit).error)
    decreases k
  {
    if k > 0 {
      var rest := before[1..];
      assert FetchSucceeds(transport, account, before[0], limit);
      RestEndsWithin(transport, account, before, limit);
      assert forall i :: 0 <= i < |rest| ==> rest[i] == before[i + 1];
      assert FirstFailureAt(transport, account, rest, limit, k - 1);
      PopulateAllFails(transport, account, rest, limit, k - 1);
    }
  }

  /** A failing fetch shields the ones after it: whatever the later
      repositories' fetches would do (even never end), the loop can be run
      and ends with that failure's error. */
  lemma FirstFailureShieldsLater(transport: Query -> Response<Connection<PullRequestNode>>, account: string,
                                 repositories: seq<Repository>, limit: nat, k: nat)
    requires FirstFailureAt(transport, account, repositories, limit, k)
    ensures PullRequestsEndWithin(transport, account, repositories, limit)
    ensures PopulateAll(transport, account, repositories, limit)
            == Err(GetPullRequests(transport, account, repositories[k].name, None, limit).error)
  {
    forall i | 0 <= i < |repositories| && (forall j :: 0 <= j < i ==> FetchSucceeds(transport, account, repositories[j], limit))
      ensures EndsWithin(transport, PullRequests(account, repositories[i].name), None, limit)
    {
      if i > k {
        assert false;
      } else if i < k {
        assert FetchSucceeds(transport, account, repositories[i], limit);
      }
    }
    PopulateAllFails(transport, account, repositories, limit, k);
  }

  /** The loop of `main`, in place on the repository array. On success every
      repository holds its pull requests; on failure the repositories before
      the failing one hold theirs, and it and the ones after are untouched. */
  method AttachPullRequests(repositories: array<Repository>,
                            transport: Query -> Response<Connection<PullRequestNode>>,
                            account: string, ghost limit: nat)
    returns (outcome: Result<(), FetchError>, ghost failedAt: nat)
    requires PullRequestsEndWithin(transport, account, repositories[..], limit)
    modifies repositories
    ensures var expected := PopulateAll(transport, account, old(repositories[..]), limit);
      && (outcome.Ok? <==> expected.Ok?)
      && (outcome.Ok? ==> repositories[..] == expected.value)
      && (outcome.Err? ==> Err(outcome.error) == expected)
    ensures outcome.Err? ==>
      && FirstFailureAt(transport, account, old(repositories[..]), limit, failedAt)
      && (forall j :: 0 <= j < failedAt ==> AttachedTo(transport, account, limit, old(repositories[j]), repositories[j]))
      && (forall j :: failedAt <= j < repositories.Length ==> repositories[j] == old(repositories[j]))
  {
    ghost var before := repositories[..];
    failedAt := 0;
    var i := 0;
    while i < repositories.Length
      invariant 0 <= i <= repositories.Length
      invariant forall j :: 0 <= j < i ==> AttachedTo(transport, account, limit, before[j], repositories[j])
      invariant forall j :: i <= j < repositories.Length ==> repositories[j] == before[j]
    {
      assert forall j :: 0 <= j < i ==> FetchSucceeds(transport, account, before[j], limit) by {
        forall j | 0 <= j < i
          ensures FetchSucceeds(transport, account, before[j], limit)
        {
          assert AttachedTo(transport, account, limit, before[j], repositories[j]);
        }
      }
      assert EndsWithin(transport, PullRequests(account, before[i].name), None, limit);
      var fetched := GetPullRequests(transport, account, repositories[i].name, None, limit);
      if fetched.Err? {
        failedAt := i;
        assert FirstFailureAt(transport, account, before, limit, i);
        PopulateAllFails(transport, account, before, limit, i);
        outcome := Err(fetched.error);
        return;
      }
      repositories[i] := repositories[i].(pullRequests := fetched.value);
      assert AttachedTo(transport, account, limit, before[i], repositories[i]);
      i := i + 1;
    }
    PopulateAllSucceeds(transport, account, before, repositories[..], limit);
    outcome := Ok(());
  }

  /** The whole run of `main`, as a value: the repository fetch's error, or
      the repositories with their pull requests attached. */
  ghost function Synchronized(repositoryTransport: Query -> Response<Connection<RepositoryNode>>,
                              pullRequestTransport: Query -> Response<Connection<PullRequestNode>>,
                              account: string, limit: nat): Result<seq<Repository>, FetchError>
    requires EndsWithin(repositoryTransport, Repositories(account), None, limit)
    requires var fetched := GetRepositories(repositoryTransport, account, None, limit);
      fetched.Ok? ==> PullRequestsEndWithin(pullRequestTransport, account, fetched.value, limit)
  {
    match GetRepositories(repositoryTransport, account, None, limit)
    case Err(e) => Err(e)
    case Ok(repositories) => PopulateAll(pullRequestTransport, account, repositories, limit)
  }

  /** `main`: the repositories are fetched from the first page, then their
      pull requests are attached in index order. */
  method Run(repositoryTransport: Query -> Response<Connection<RepositoryNode>>,
             pullRequestTransport: Query -> Response<Connection<PullRequestNode>>,
             account: string, ghost limit: nat) returns (outcome: Result<seq<Repository>, FetchError>)
    requires EndsWithin(repositoryTransport, Repositories(account), None, limit)
    requires var fetched := GetRepositories(repositoryTransport, account, None, limit);
      fetched.Ok? ==> PullRequestsEndWithin(pullRequestTransport, account, fetched.value, limit)
    ensures outcome == Synchronized(repositoryTransport, pullRequestTransport, account, limit)
  {
    var fetched := GetRepositories(repositoryTransport, account, None, limit);
    if fetched.Err? {
      return Err(fetched.error);
    }
    var list := fetched.value;
    var repositories := new Repository[|list|](i requires 0 <= i < |list| => list[i]);
    assert repositories[..] == list;
    var attached;
    ghost var failedAt;
    attached, failedAt := AttachPullRequests(repositories, pullRequestTransport, account, limit);
    if attached.Err? {
      return Err(attached.error);
    }
    outcome := Ok(repositories[..]);
  }
}
