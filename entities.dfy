/** The objects the client builds from the nodes of each page. */
module Entities {
  import opened Wrappers

  datatype Author = Author(login: string)

  datatype PullRequestState = OPEN | CLOSED | MERGED

  datatype MergeableState = MERGEABLE | CONFLICTING | UNKNOWN

  /** A repository node as the repository query selects it. */
  datatype RepositoryNode = RepositoryNode(id: string, name: string)

  /** A pull-request node as the pull-request query selects it. `author` is
      null for a deleted account; `closedAt` and `mergedAt` are null until
      the pull request is closed or merged. */
  datatype PullRequestNode = PullRequestNode(
    id: string,
    number: int,
    title: string,
    body: string,
    baseRefName: string,
    author: Option<Author>,
    additions: int,
    deletions: int,
    changedFiles: int,
    state: PullRequestState,
    createdAt: string,
    closed: bool,
    closedAt: Option<string>,
    merged: bool,
    mergedAt: Option<string>,
    mergeable: MergeableState)

  /** A repository with the pull requests attached to it. */
  datatype Repository = Repository(id: string, name: string, pullRequests: seq<PullRequest>)

  /** A pull request: the node's own fields, `author` kept as the raw object. */
  datatype PullRequest = PullRequest(
    id: string,
    number: int,
    title: string,
    body: string,
    baseRefName: string,
    author: Option<Author>,
    additions: int,
    deletions: int,
    changedFiles: int,
    state: PullRequestState,
    createdAt: string,
    closed: bool,
    closedAt: Option<string>,
    merged: bool,
    mergedAt: Option<string>,
    mergeable: MergeableState)

  /** A new repository takes the node's id and name and has no pull requests yet. */
  function ToRepository(node: RepositoryNode): Repository
  {
    Repository(node.id, node.name, [])
  }

  /** The node a repository was made from. */
  function NodeOfRepository(r: Repository): RepositoryNode
  {
    RepositoryNode(r.id, r.name)
  }

  /** The node's fields copied onto a new pull request, unchanged. */
  function ToPullRequest(node: PullRequestNode): PullRequest
  {
    PullRequest(node.id, node.number, node.title, node.body, node.baseRefName, node.author,
                node.additions, node.deletions, node.changedFiles, node.state, node.createdAt,
                node.closed, node.closedAt, node.merged, node.mergedAt, node.mergeable)
  }

  /** The node a pull request was made from. */
  function NodeOfPullRequest(pr: PullRequest): PullRequestNode
  {
    PullRequestNode(pr.id, pr.number, pr.title, pr.body, pr.baseRefName, pr.author,
                    pr.additions, pr.deletions, pr.changedFiles, pr.state, pr.createdAt,
                    pr.closed, pr.closedAt, pr.merged, pr.mergedAt, pr.mergeable)
  }

  /** A new repository takes `id` from the node's `id` and `name` from its
      `name`, and starts with no pull requests; mapping loses nothing, and
      every repository that has no pull requests yet is the image of its
      own node. */
  lemma RepositoryMappingInverse(node: RepositoryNode, r: Repository)
    ensures ToRepository(node).id == node.id
    ensures ToRepository(node).name == node.name
    ensures ToRepository(node).pullRequests == []
    ensures NodeOfRepository(ToRepository(node)) == node
    ensures r.pullRequests == [] ==> ToRepository(NodeOfRepository(r)) == r
  {
  }

  /** Every field of a pull request is the node's field of the same name,
      unchanged (in particular `author` may stay null), and copying is a
      bijection: no field is dropped or added. */
  lemma PullRequestMappingInverse(node: PullRequestNode, pr: PullRequest)
    ensures ToPullRequest(node).id == node.id
    ensures ToPullRequest(node).number == node.number
    ensures ToPullRequest(node).title == node.title
    ensures ToPullRequest(node).body == node.body
    ensures ToPullRequest(node).baseRefName == node.baseRefName
    ensures ToPullRequest(node).author == node.author
    ensures ToPullRequest(node).additions == node.additions
    ensures ToPullRequest(node).deletions == node.deletions
    ensures ToPullRequest(node).changedFiles == node.changedFiles
    ensures ToPullRequest(node).state == node.state
    ensures ToPullRequest(node).createdAt == node.createdAt
    ensures ToPullRequest(node).closed == node.closed
    ensures ToPullRequest(node).closedAt == node.closedAt
    ensures ToPullRequest(node).merged == node.merged
    ensures ToPullRequest(node).mergedAt == node.mergedAt
    ensures ToPullRequest(node).mergeable == node.mergeable
    ensures NodeOfPullRequest(ToPullRequest(node)) == node
    ensures ToPullRequest(NodeOfPullRequest(pr)) == pr
  {
  }
}
