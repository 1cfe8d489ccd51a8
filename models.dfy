/** Record shapes of the in-memory posts resource, and the error a lookup raises.

    The store keeps and returns the very post objects it holds; the model treats
    each shape as a value, a datatype. Runtime validation of the fields is
    not modelled; only the shapes are. */
module Models {

  /** A stored post: the identity assigned by the store, a title and a body. */
  datatype Post = Post(id: int, title: string, content: string)

  /** The body of a create request: no id, the store assigns one. */
  datatype PostCreate = PostCreate(title: string, content: string)

  /** The body of a replace request: it carries its own id. */
  datatype PostUpdate = PostUpdate(id: int, title: string, content: string)

  /** The HTTP error the service and its router raise: a status code and a detail text. */
  datatype HttpError = HttpError(statusCode: int, detail: string)

  /** Raised by every operation that addresses an id no stored post has. */
  const PostNotFound := HttpError(404, "Post not found")

  /** Raised by the router when the id in the path and the id in the body differ. */
  const PostIdMismatch := HttpError(400, "Post ID in URL and body do not match")

  /** The outcome of an operation that may raise: a value, or the error raised. */
  datatype Result<+T> = Ok(value: T) | Err(error: HttpError)

  /** A value that may be missing, such as the position of a post no one has. */
  datatype Option<+T> = None | Some(value: T)

  /** The value of an operation that returns nothing on success. */
  datatype Unit = Unit

  /** The post a create request becomes once the store has chosen its id. */
  function FromCreate(id: int, data: PostCreate): (p: Post)
    ensures p.id == id
    ensures PostCreate(p.title, p.content) == data
  {
    Post(id, data.title, data.content)
  }

  /** The post a replace request becomes: every field, the id included, is the request's. */
  function FromUpdate(data: PostUpdate): (p: Post)
    ensures PostUpdate(p.id, p.title, p.content) == data
  {
    Post(data.id, data.title, data.content)
  }
}
