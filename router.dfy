/** The one check the HTTP layer adds on top of the store: a replace request is
    refused when the id in the path differs from the id in the body. Routing,
    dependency injection and status-code mapping are not modelled. */
module Router {
  import opened Models
  import opened Service

  /** PUT /posts/{postId}: the 400 error on an id mismatch, otherwise the
      store's replace. Because of the guard, a replace through the router never
      introduces a duplicate id. */
  method ReplacePost(service: PostsService, postId: int, data: PostUpdate) returns (r: Result<Post>)
    modifies service
    ensures data.id != postId ==> r == Err(PostIdMismatch) && service.posts == old(service.posts)
    ensures data.id == postId ==> match FirstIndexOf(old(service.posts), postId)
      case Some(k) => r == Ok(FromUpdate(data)) && service.posts == old(service.posts)[k := FromUpdate(data)]
      case None => r == Err(PostNotFound) && service.posts == old(service.posts)
    ensures service.lastPostId == old(service.lastPostId) && service.issued == old(service.issued)
    ensures old(service.Valid()) ==> service.Valid()
  {
    if data.id != postId {
      return Err(PostIdMismatch);
    }
    r := service.ReplacePost(postId, data);
  }
}
