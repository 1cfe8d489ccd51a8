# In-memory posts store

A model of the layered "posts" example of the FastAPI sandbox repository: the
`PostsService` that keeps posts in memory. The service holds an ordered list of
posts and an id counter. It offers five operations:

- list all posts;
- look a post up by id, with a first-match linear scan that raises a 404 "Post not found" error;
- create a post: bump the counter, build the post with the new counter value as its id, append it;
- replace a post at the position of the found one;
- delete the found post.

The record shapes `Post`, `PostCreate` and `PostUpdate` become datatypes in
module `Models`. The service becomes the class `Service.PostsService`. Its field
`posts: seq<Post>` is the list and `lastPostId: int` is the counter. A ghost
field `issued` records every id `CreatePost` has returned, oldest first, so that
"ids are never handed out twice" can be stated across any sequence of calls.
The lookup's `for` loop is a method with a loop. Python's `list.index` and
`list.remove` are library calls with no loop in the source, so they are pure
functions (`IndexOf`, `RemoveFirst`) that compare posts field by field, as
Python's `==` does on these records. An exception is a `Result` value whose
`Err` carries the status code and detail text the source raises.

Module `Router` carries the one check of the HTTP layer that matters to the
store: a PUT whose path id differs from its body id is refused with 400.
Module `Scenarios` holds caller-side methods. They derive, from the class
contracts alone: lookup after create, lookup of an id never created, a delete
followed by a second delete, no
id reuse, insertion order, replace keeping position, and a replace whose body
id differs from its path id duplicating an id when the router's check is
bypassed.

Two points of the code the model keeps as written:

- The not-found error carries no id: examples/module/posts/service.py:28-31
  raises 404 with the fixed detail "Post not found", and `PostNotFound` is that
  error.
- `replace_post` takes the new post's id from the body
  (examples/module/posts/service.py:78), and
  `Service.PostsService.ReplacePost` does the same. Id uniqueness survives a
  replace when the body id equals the path id, the condition `Router.ReplacePost`
  enforces (examples/module/posts/router.py:58-62);
  `Scenarios.UnguardedReplaceDuplicatesIds` shows that it can fail otherwise.

## Model

| member | source | states |
|---|---|---|
| Models.FromCreate | examples/module/posts/service.py:62 | the created post has the chosen id and exactly the request's title and content |
| Models.FromUpdate | examples/module/posts/service.py:78 | the replacement post carries every field of the request body, its id included |
| Service.FirstIndexOf | examples/module/posts/service.py:25-31 | the scan's result is the first position whose id matches, no earlier post has that id, and it is absent exactly when no post has the id |
| Service.IndexOf | examples/module/posts/service.py:79 | `list.index` gives a position holding an equal post with no equal post before it |
| Service.RemoveFirst | examples/module/posts/service.py:94 | `list.remove` removes the element at the position `list.index` gives, keeping the rest in order |
| Service.RemoveFirstMultiset | examples/module/posts/service.py:94 | `list.remove` takes exactly one copy of the post out of the list and keeps every other |
| Service.RemoveAt | examples/module/posts/service.py:94 | removing a position shortens the list by one, keeps the posts before it and shifts the posts after it down by one |
| Service.IndexOfFirstMatch | examples/module/posts/service.py:77-79 | the post found by the id scan is the one `list.index` and `list.remove` pick, so replace and delete act on the first post with the id |
| Service.UniqueIdsLookup | examples/module/posts/service.py:25-27 | with distinct ids, looking up the id of any stored post finds that post's position |
| Service.RemoveAtLeavesIdAbsent | examples/module/posts/service.py:93-94 | with distinct ids, after deleting the found post no post has that id |
| Service.RemoveAtKeepsIds | examples/module/posts/service.py:94 | deleting a post keeps ids distinct and within 1..counter |
| Service.ReplaceSameIdKeepsIds | examples/module/posts/service.py:79-80 | writing a post with the looked-up id at the found position keeps ids distinct and within 1..counter |
| Service.AppendFreshId | examples/module/posts/service.py:61-63 | appending a post whose id exceeds every stored id keeps ids distinct, and a lookup of the new id finds the last position |
| Service.PostsService.constructor | examples/module/posts/service.py:8-13 | a new service has an empty list, a counter of 0 and an empty history of issued ids, and satisfies the store invariant: stored ids distinct, within 1..counter, and each one issued by a create |
| Service.PostsService.GetPost | examples/module/posts/service.py:15-31 | the loop returns the first post whose id matches, or the 404 "Post not found" error when none does |
| Service.PostsService.GetAllPosts | examples/module/posts/service.py:33-39 | returns the stored posts in list order |
| Service.PostsService.GetPostById | examples/module/posts/service.py:41-51 | succeeds exactly when some stored post has the id, returns a stored post with that id, the first one in list order, and otherwise raises 404 |
| Service.PostsService.CreatePost | examples/module/posts/service.py:53-64 | the counter grows by one, the returned post has the new counter value as id and the request's fields, it is appended after the unchanged old posts, its id joins the history of issued ids, and the store invariant (stored ids distinct, within 1..counter, each one issued by a create) is kept and a lookup of the new id finds it |
| Service.PostsService.ReplacePost | examples/module/posts/service.py:66-81 | for an existing id, the post built from the body replaces the first post with that id at its position, nothing else changes and it is returned; for a missing id, 404 and nothing changes; the invariant is kept when the body id equals the path id |
| Service.PostsService.DeletePost | examples/module/posts/service.py:83-94 | for an existing id, exactly the first post with that id is removed and the rest keep their order; for a missing id, 404 and nothing changes; the counter never moves, and the invariant is kept with the id then absent |
| Router.ReplacePost | examples/module/posts/router.py:47-63 | a path/body id mismatch is refused with 400 and changes nothing; otherwise it is the store's replace, and the store invariant always survives |
| Scenarios.CreateThenGet | examples/module/posts/service.py:41-64 | looking up the id a create returned yields the created post |
| Scenarios.DeleteTwice | examples/module/posts/service.py:83-94 | deleting an existing id shortens the list by one; a second delete and a lookup of that id both fail with 404 |
| Scenarios.NoIdReuse | examples/module/posts/service.py:61 | a create after a delete returns a larger id than the one before, and every created id exceeds all ids issued earlier |
| Scenarios.InsertionOrder | examples/module/posts/service.py:33-64 | two creates on a new store list back in insertion order with ids 1 and 2 |
| Scenarios.ReplaceKeepsPosition | examples/module/posts/service.py:66-81 | replacing the middle of three posts keeps the id order 1, 2, 3 and changes only that post |
| Scenarios.NeverCreatedNotFound | examples/module/posts/service.py:25-31 | on a store that keeps its invariant, looking up an id no create ever returned fails with 404 |
| Scenarios.UnguardedReplaceDuplicatesIds | examples/module/posts/service.py:77-80 | replacing post 2 with a body carrying id 1, without the router's check, leaves two posts with id 1 |

## Left out

- The module-level singleton and its sharing among concurrent request handlers (examples/module/posts/service.py:97-107): this is wiring and concurrency, and every operation here is modelled as one atomic step.
- Service.PostsService.GetAllPosts, GetPostById, CreatePost and ReplacePost return values. The source returns the live list object (examples/module/posts/service.py:39) and the very `Post` objects it stores (examples/module/posts/service.py:25-27, 62-64, 80-81); these are mutable, so a caller holding one could change the store. That aliasing is not modelled.
- HTTP routing, dependency injection and status-code mapping in examples/module/posts/router.py and examples/module/main.py are not part of this model, apart from the path/body id check.
- Pydantic runtime validation of request bodies is library behaviour; only the field shapes of examples/module/posts/models.py are modelled.
- The CLI date formatter (examples/cli/main.py) only calls Python's `datetime` parsing, time-zone and formatting routines and reads the clock. It is not part of this model.
- The ORM-backed application (examples/db_orm/) keeps its state in PostgreSQL through Tortoise ORM, and its settings come from the environment. It is not part of this model.
