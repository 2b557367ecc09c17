/** The decoded body of a GraphQL response and how the client judges it.
    Sending the request, buffering the chunks and parsing the JSON are not
    modelled: a response arrives here already decoded. */
module Transport {
  import opened Wrappers

  /** One entry of the server's top-level `errors` list. */
  datatype ApiError = ApiError(message: string)

  /** `pageInfo` of a paginated connection. A null `endCursor` is `None`. */
  datatype PageInfo = PageInfo(endCursor: Option<string>, hasNextPage: bool)

  /** An edge wraps one node of the collection. */
  datatype Edge<N> = Edge(node: N)

  /** One page of a connection: its edges in server order and its `pageInfo`. */
  datatype Connection<N> = Connection(edges: seq<Edge<N>>, pageInfo: PageInfo)

  /** A decoded response body. `errors` is `None` when the field is absent or
      null; any list, even an empty one, is truthy. `data` is the payload at
      the path the query asks for, `None` when the body has no usable data. */
  datatype Response<D> = Response(errors: Option<seq<ApiError>>, data: Option<D>)

  /** The `end` handler: a body with `errors` rejects with that list and its
      `data` is dropped; any other body resolves with its `data`. */
  function Classify<D>(response: Response<D>): (r: Result<Option<D>, seq<ApiError>>)
    ensures r.Err? <==> response.errors.Some?
    ensures r.Err? ==> r.error == response.errors.value
    ensures r.Ok? ==> r.value == response.data
  {
    if response.errors.Some? then Err(response.errors.value) else Ok(response.data)
  }

  /** Partial data never rescues a response that reports errors. */
  lemma ErrorsDiscardData<D>(errors: seq<ApiError>, d1: Option<D>, d2: Option<D>)
    ensures Classify(Response(Some(errors), d1)) == Classify(Response(Some(errors), d2)) == Err(errors)
  {
  }
}
