/** The records the Post Explorer passes around: a post as the REST endpoint
    returns it, the status of the last fetch, and the outcome of one fetch. */
module Types {

  /** One post; identity is `id`. Posts are never changed once fetched. */
  datatype Post = Post(userId: int, id: int, title: string, body: string)

  /** The status of the post collection held by the hook. */
  datatype FetchStatus = Idle | Loading | Success | Error

  /** What one call of the post service yields: the decoded list, or a failure
      (a non-2xx response or a transport error). The network call itself is
      not modelled; its outcome is an input to the load operation. */
  datatype FetchOutcome = Fetched(data: seq<Post>) | FetchFailed
}
