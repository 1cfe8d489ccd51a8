/** What a caller of the store can rely on, derived only from the contracts of
    `PostsService`: lookups after create, delete and replace, the order of the
    list, and ids that are never handed out twice. */
module Scenarios {
  import opened Models
  import opened Service

  /** Creating a post and then looking up the returned id yields that post. */
  method CreateThenGet(service: PostsService, data: PostCreate) returns (p: Post, r: Result<Post>)
    requires service.Valid()
    modifies service
    ensures service.Valid()
    ensures r == Ok(p) && p.title == data.title && p.content == data.content
  {
    p := service.CreatePost(data);
    r := service.GetPostById(p.id);
  }

  /** Deleting an existing post removes one element; deleting it again, or
      looking it up, fails with not-found. */
  method DeleteTwice(service: PostsService, postId: int) returns (first: Result<Unit>, second: Result<Unit>, lookup: Result<Post>)
    requires service.Valid() && !Absent(service.posts, postId)
    modifies service
    ensures service.Valid()
    ensures |service.posts| == |old(service.posts)| - 1
    ensures first == Ok(Unit) && second == Err(PostNotFound) && lookup == Err(PostNotFound)
  {
    first := service.DeletePost(postId);
    second := service.DeletePost(postId);
    lookup := service.GetPostById(postId);
  }

  /** A create after any delete hands out an id larger than every id created
      before, the deleted one included. */
  method NoIdReuse(service: PostsService, a: PostCreate, b: PostCreate) returns (first: Post, second: Post)
    requires service.CounterValid()
    modifies service
    ensures service.CounterValid()
    ensures first.id < second.id
    ensures forall i :: 0 <= i < |old(service.issued)| ==> old(service.issued)[i] < first.id
  {
    first := service.CreatePost(a);
    var _ := service.DeletePost(first.id);
    second := service.CreatePost(b);
  }

  /** On a fresh store, two creates list back in insertion order with ids 1 and 2. */
  method InsertionOrder(t1: string, c1: string, t2: string, c2: string) returns (all: seq<Post>)
    ensures all == [Post(1, t1, c1), Post(2, t2, c2)]
  {
    var service := new PostsService();
    var _ := service.CreatePost(PostCreate(t1, c1));
    var _ := service.CreatePost(PostCreate(t2, c2));
    all := service.GetAllPosts();
  }

  /** Replacing the middle of three posts keeps the order of ids 1, 2, 3 and
      changes only the middle post's title and content. */
  method ReplaceKeepsPosition(t: string, c: string) returns (all: seq<Post>)
    ensures |all| == 3
    ensures all[0].id == 1 && all[1].id == 2 && all[2].id == 3
    ensures all[1] == Post(2, t, c)
    ensures all[0] == Post(1, "a", "a") && all[2] == Post(3, "c", "c")
  {
    var service := new PostsService();
    var _ := service.CreatePost(PostCreate("a", "a"));
    var _ := service.CreatePost(PostCreate("b", "b"));
    var _ := service.CreatePost(PostCreate("c", "c"));
    var _ := service.ReplacePost(2, PostUpdate(2, t, c));
    all := service.GetAllPosts();
  }

  /** Without the router's check, replacing post 2 with a body that carries id 1
      leaves two posts with id 1: the store itself does not keep ids unique. */
  method UnguardedReplaceDuplicatesIds() returns (all: seq<Post>)
    ensures all == [Post(1, "a", "a"), Post(1, "x", "x")]
    ensures !UniqueIds(all)
  {
    var service := new PostsService();
    var _ := service.CreatePost(PostCreate("a", "a"));
    var _ := service.CreatePost(PostCreate("b", "b"));
    var _ := service.ReplacePost(2, PostUpdate(1, "x", "x"));
    all := service.GetAllPosts();
    assert all[0].id == all[1].id;
  }

  /** Looking up an id no create ever returned fails with not-found. */
  method NeverCreatedNotFound(service: PostsService, postId: int) returns (r: Result<Post>)
    requires service.Valid() && postId !in service.issued
    ensures r == Err(PostNotFound)
  {
    r := service.GetPostById(postId);
  }
}
