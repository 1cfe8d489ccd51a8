/** The in-memory posts store: an ordered list of posts and an id counter.

    The specification functions below describe, on plain sequences, what the
    store's list operations do: the first-match scan by id, Python's structural
    `list.index` and `list.remove`. The class `PostsService` holds the mutable
    state and its methods are proved against those functions. */
module Service {
  import opened Models

  // ---------------------------------------------------------------------------
  // Specification functions on the list of posts
  // ---------------------------------------------------------------------------

  /** No two posts in the list share an id. */
  ghost predicate UniqueIds(posts: seq<Post>) {
    forall i, j :: 0 <= i < j < |posts| ==> posts[i].id != posts[j].id
  }

  /** Every id in the list lies between 1 and `bound`. */
  ghost predicate IdsWithin(posts: seq<Post>, bound: int) {
    forall i :: 0 <= i < |posts| ==> 1 <= posts[i].id <= bound
  }

  /** No post in the list has id `postId`. */
  ghost predicate Absent(posts: seq<Post>, postId: int) {
    forall i :: 0 <= i < |posts| ==> posts[i].id != postId
  }

  /** The position of the first post, in list order, whose id is `postId`;
      None when no post has that id. */
  function FirstIndexOf(posts: seq<Post>, postId: int): (r: Option<nat>)
    ensures r.Some? ==> r.value < |posts| && posts[r.value].id == postId
    ensures r.Some? ==> forall j :: 0 <= j < r.value ==> posts[j].id != postId
    ensures r.None? <==> Absent(posts, postId)
  {
    if |posts| == 0 then None
    else if posts[0].id == postId then Some(0)
    else
      match FirstIndexOf(posts[1..], postId)
      case None => None
      case Some(k) => Some(k + 1)
  }

  /** Python's `list.index`: the position of the first element equal, field by
      field, to `post`. The list must hold such an element. */
  function IndexOf(posts: seq<Post>, post: Post): (i: nat)
    requires post in posts
    ensures i < |posts| && posts[i] == post
    ensures forall j :: 0 <= j < i ==> posts[j] != post
  {
    if posts[0] == post then 0 else 1 + IndexOf(posts[1..], post)
  }

  /** Python's `list.remove`: the list without its first element equal to `post`.
      The list must hold such an element. */
  function RemoveFirst(posts: seq<Post>, post: Post): (r: seq<Post>)
    requires post in posts
    ensures r == RemoveAt(posts, IndexOf(posts, post))
  {
    if posts[0] == post then posts[1..]
    else
      var rest := RemoveFirst(posts[1..], post);
      assert [posts[0]] + rest == RemoveAt(posts, IndexOf(posts, post));
      [posts[0]] + rest
  }

  /** `list.remove` takes exactly one copy of `post` out of the list. */
  lemma {:induction false} RemoveFirstMultiset(posts: seq<Post>, post: Post)
    requires post in posts
    ensures multiset(RemoveFirst(posts, post)) == multiset(posts) - multiset{post}
  {
    var i := IndexOf(posts, post);
    assert posts == posts[..i] + [post] + posts[i + 1..];
  }

  /** The list without the element at position `i`, the others in their order. */
  function RemoveAt(posts: seq<Post>, i: nat): (r: seq<Post>)
    requires i < |posts|
    ensures |r| == |posts| - 1
    ensures forall j :: 0 <= j < i ==> r[j] == posts[j]
    ensures forall j :: i <= j < |r| ==> r[j] == posts[j + 1]
  {
    posts[..i] + posts[i + 1..]
  }

  // ---------------------------------------------------------------------------
  // Lemmas about the specification functions
  // ---------------------------------------------------------------------------

  /** The post found by the id scan is also the one `list.index` and
      `list.remove` pick: an earlier element equal to it would carry its id. */
  lemma IndexOfFirstMatch(posts: seq<Post>, postId: int, k: nat)
    requires FirstIndexOf(posts, postId) == Some(k)
    ensures posts[k] in posts
    ensures IndexOf(posts, posts[k]) == k
    ensures RemoveFirst(posts, posts[k]) == RemoveAt(posts, k)
  {
  }

  /** With unique ids, the scan for the id of the post at `k` finds `k`. */
  lemma UniqueIdsLookup(posts: seq<Post>, k: nat)
    requires UniqueIds(posts) && k < |posts|
    ensures FirstIndexOf(posts, posts[k].id) == Some(k)
  {
  }

  /** Removing the post at the found position leaves no post with that id when
      ids are unique: a second delete or lookup of it fails. */
  lemma RemoveAtLeavesIdAbsent(posts: seq<Post>, postId: int, k: nat)
    requires UniqueIds(posts)
    requires FirstIndexOf(posts, postId) == Some(k)
    ensures Absent(RemoveAt(posts, k), postId)
  {
  }

  /** Removing one post keeps ids unique and within their bound. */
  lemma RemoveAtKeepsIds(posts: seq<Post>, k: nat, bound: int)
    requires k < |posts|
    requires UniqueIds(posts) && IdsWithin(posts, bound)
    ensures UniqueIds(RemoveAt(posts, k)) && IdsWithin(RemoveAt(posts, k), bound)
  {
  }

  /** Writing, at the found position, a post that carries the looked-up id keeps
      ids unique and within their bound. */
  lemma ReplaceSameIdKeepsIds(posts: seq<Post>, k: nat, p: Post, bound: int)
    requires k < |posts| && p.id == posts[k].id
    requires UniqueIds(posts) && IdsWithin(posts, bound)
    ensures UniqueIds(posts[k := p]) && IdsWithin(posts[k := p], bound)
  {
  }

  /** Appending a post whose id exceeds the bound of every stored id keeps ids
      unique, within the new bound, and the scan for the new id finds the last
      position. */
  lemma {:induction false} AppendFreshId(posts: seq<Post>, p: Post, bound: int)
    requires UniqueIds(posts) && IdsWithin(posts, bound)
    requires 0 <= bound < p.id
    ensures UniqueIds(posts + [p]) && IdsWithin(posts + [p], p.id)
    ensures FirstIndexOf(posts + [p], p.id) == Some(|posts|)
  {
    var r := posts + [p];
    assert forall i :: 0 <= i < |posts| ==> r[i] == posts[i];
    assert r[|posts|] == p;
    UniqueIdsLookup(r, |posts|);
  }

  // ---------------------------------------------------------------------------
  // The service object
  // ---------------------------------------------------------------------------

  /** Ids in the order `CreatePost` handed them out. */
  ghost predicate StrictlyIncreasing(ids: seq<int>) {
    forall i, j :: 0 <= i < j < |ids| ==> ids[i] < ids[j]
  }

  class PostsService {
    /** The posts in the order they were created (replace keeps a post's place). */
    var posts: seq<Post>
    /** The id of the most recently created post; 0 before the first create. */
    var lastPostId: int
    /** Every id `CreatePost` has returned so far, oldest first. */
    ghost var issued: seq<int>

    /** The counter and the history of created ids agree: the ids handed out
        strictly increase and none exceeds the counter. */
    ghost predicate CounterValid()
      reads this
    {
      0 <= lastPostId &&
      StrictlyIncreasing(issued) &&
      forall i :: 0 <= i < |issued| ==> 1 <= issued[i] <= lastPostId
    }

    /** The store's invariant: the counter is consistent, stored ids are
        distinct, each lies between 1 and the counter and was handed out by a
        create. */
    ghost predicate Valid()
      reads this
    {
      CounterValid() && UniqueIds(posts) && IdsWithin(posts, lastPostId) &&
      forall i :: 0 <= i < |posts| ==> posts[i].id in issued
    }

    /** An empty list of posts and a counter at 0. */
    constructor ()
      ensures posts == [] && lastPostId == 0 && issued == []
      ensures Valid()
    {
      posts := [];
      lastPostId := 0;
      issued := [];
    }

    /** The id scan: the first post, in list order, whose id is `postId`, or
        the not-found error. */
    method GetPost(postId: int) returns (r: Result<Post>)
      ensures FirstIndexOf(posts, postId).Some? ==> r == Ok(posts[FirstIndexOf(posts, postId).value])
      ensures FirstIndexOf(posts, postId).None? ==> r == Err(PostNotFound)
    {
      for i := 0 to |posts|
        invariant forall j :: 0 <= j < i ==> posts[j].id != postId
      {
        if posts[i].id == postId {
          ghost var found := FirstIndexOf(posts, postId);
          assert found.value <= i;
          return Ok(posts[i]);
        }
      }
      return Err(PostNotFound);
    }

    /** All posts, in list order. */
    method GetAllPosts() returns (r: seq<Post>)
      ensures r == posts
    {
      r := posts;
    }

    /** The public lookup: a post with id `postId` if any is stored, the first
        one in list order; otherwise the not-found error. */
    method GetPostById(postId: int) returns (r: Result<Post>)
      ensures r.Ok? <==> !Absent(posts, postId)
      ensures r.Ok? ==> r.value in posts && r.value.id == postId
      ensures r.Ok? ==> exists k :: FirstIndexOf(posts, postId) == Some(k) && posts[k] == r.value
      ensures r.Err? ==> r.error == PostNotFound
    {
      r := GetPost(postId);
    }

    /** Bumps the counter, builds a post with the new counter value as its id,
        appends it and returns it. */
    method CreatePost(data: PostCreate) returns (p: Post)
      modifies this
      ensures lastPostId == old(lastPostId) + 1
      ensures p == FromCreate(lastPostId, data)
      ensures posts == old(posts) + [p]
      ensures issued == old(issued) + [p.id]
      ensures old(CounterValid()) ==> CounterValid()
      ensures old(Valid()) ==> Valid() && FirstIndexOf(posts, p.id) == Some(|posts| - 1)
    {
      ghost var wasValid := Valid();
      lastPostId := lastPostId + 1;
      var newPost := FromCreate(lastPostId, data);
      if wasValid {
        AppendFreshId(posts, newPost, lastPostId - 1);
      }
      posts := posts + [newPost];
      issued := issued + [newPost.id];
      p := newPost;
    }

    /** Finds the post with `postId`, then writes a post built from the request
        body (whose id is the body's, not `postId`) at the position `list.index`
        gives for the found post. */
    method ReplacePost(postId: int, data: PostUpdate) returns (r: Result<Post>)
      modifies this
      ensures lastPostId == old(lastPostId) && issued == old(issued)
      ensures match FirstIndexOf(old(posts), postId)
        case Some(k) => r == Ok(FromUpdate(data)) && posts == old(posts)[k := FromUpdate(data)]
        case None => r == Err(PostNotFound) && posts == old(posts)
      ensures old(CounterValid()) ==> CounterValid()
      ensures old(Valid()) && data.id == postId ==> Valid()
    {
      var found := GetPost(postId);
      if found.Err? {
        return Err(found.error);
      }
      ghost var k := FirstIndexOf(posts, postId).value;
      IndexOfFirstMatch(posts, postId, k);
      var updated := FromUpdate(data);
      var index := IndexOf(posts, found.value);
      if Valid() && data.id == postId {
        ReplaceSameIdKeepsIds(posts, index, updated, lastPostId);
      }
      posts := posts[index := updated];
      r := Ok(updated);
    }

    /** Finds the post with `postId` and removes it with `list.remove`; the
        counter is not touched, so its id is never handed out again. */
    method DeletePost(postId: int) returns (r: Result<Unit>)
      modifies this
      ensures lastPostId == old(lastPostId) && issued == old(issued)
      ensures match FirstIndexOf(old(posts), postId)
        case Some(k) => r == Ok(Unit) && posts == RemoveAt(old(posts), k)
        case None => r == Err(PostNotFound) && posts == old(posts)
      ensures old(CounterValid()) ==> CounterValid()
      ensures old(Valid()) ==> Valid()
      ensures old(Valid()) && r.Ok? ==> Absent(posts, postId)
    {
      var found := GetPost(postId);
      if found.Err? {
        return Err(found.error);
      }
      ghost var k := FirstIndexOf(posts, postId).value;
      IndexOfFirstMatch(posts, postId, k);
      if Valid() {
        RemoveAtKeepsIds(posts, k, lastPostId);
        RemoveAtLeavesIdAbsent(posts, postId, k);
      }
      posts := RemoveFirst(posts, found.value);
      r := Ok(Unit);
    }
  }
}
