/**
 * The shape of the search API's replies, as far as the crawler reads them.
 * Only the members the crawler looks at are kept; each object member records
 * whether its key was absent, null or present.
 */
module Api {
  import opened Common
  import opened RateLimit

  /**
   * One search result node. A key the node lacks is None; `createdAt` and
   * `updatedAt` are None also when the timestamp is empty or unparseable.
   */
  datatype RepoNode = RepoNode(
    id: Option<string>,
    ownerLogin: Option<string>,
    name: Option<string>,
    stargazerCount: Option<int>,
    createdAt: Option<int>,
    updatedAt: Option<int>)

  /**
   * `pageInfo`, reduced to what is read: whether `hasNextPage` is truthy, and
   * `endCursor` (None when absent or null). The empty object is PageInfo(false, None).
   */
  datatype PageInfo = PageInfo(hasNextPage: bool, endCursor: Option<string>)

  const NoMorePages := PageInfo(false, None)

  datatype SearchResult = SearchResult(nodes: Field<seq<RepoNode>>, pageInfo: Field<PageInfo>)

  /** The `data` object; `rateLimit` is None when absent, null or an empty object. */
  datatype Data = Data(search: Field<SearchResult>, rateLimit: Option<RateLimitInfo>)

  /** A decoded JSON reply body. */
  datatype Body = Body(data: Field<Data>)

  /**
   * What one HTTP attempt yields: a status with a decoded body, or a transport
   * failure (connection error, timeout, or a client error while reading the body).
   */
  datatype Reply = Response(status: int, body: Body) | TransportFailure
}
