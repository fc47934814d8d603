/** Properties of the `/posts` router that relate several requests: round
    trips through create, update, read and delete, and what one caller's
    requests can do to posts owned by somebody else. */
module PostProperties {
  import opened Models
  import opened Database
  import opened PostRouter

  /** A post created with some body reads back, by any caller, as exactly
      that body under the caller's ownership. */
  lemma CreateThenRead(posts: map<int, Post>, newId: int, caller: Caller, body: PostCreate, reader: Caller)
    requires PostsKeyed(posts) && newId !in posts
    ensures ReadPost(CreateStep(posts, newId, caller, body).posts, newId, reader)
         == Ok(PostOut(Post(newId, caller.id, body.title, body.content, body.published)))
  {
  }

  /** Creating a post adds exactly one item to the listing, and the new post is among the items. */
  lemma CreateThenList(posts: map<int, Post>, newId: int, caller: Caller, body: PostCreate,
                       limit: int, skip: int, search: Option<string>)
    requires PostsKeyed(posts) && newId !in posts
    ensures var after := CreateStep(posts, newId, caller, body);
      && |GetPosts(after.posts, limit, skip, search)| == |GetPosts(posts, limit, skip, search)| + 1
      && after.result.value in GetPosts(after.posts, limit, skip, search)
  {
    var after := CreateStep(posts, newId, caller, body);
    assert after.posts.Keys == posts.Keys + {newId};
    assert |after.posts.Keys| == |posts.Keys| + 1;
    var listed := GetPosts(after.posts, limit, skip, search);
    assert exists i | 0 <= i < |listed| :: listed[i] == PostOut(after.posts[newId]);
  }

  /** The owner's update is what a later read returns. */
  lemma UpdateThenRead(posts: map<int, Post>, id: int, body: PostCreate, caller: Caller, reader: Caller)
    requires PostsKeyed(posts) && id in posts && posts[id].ownerId == caller.id
    ensures ReadPost(UpdateStep(posts, id, body, caller).posts, id, reader)
         == Ok(PostOut(Post(id, posts[id].ownerId, body.title, body.content, body.published)))
  {
  }

  /** Deleting an id that the owner has just deleted answers 404, whoever asks,
      and changes nothing. */
  lemma DeleteTwice(posts: map<int, Post>, id: int, caller: Caller, again: Caller)
    requires PostsKeyed(posts)
    requires DeleteStep(posts, id, caller).result.Ok?
    ensures var first := DeleteStep(posts, id, caller).posts;
      && DeleteStep(first, id, again).result == NotFound
      && DeleteStep(first, id, again).posts == first
      && ReadPost(first, id, again) == NotFound
  {
  }

  /** A caller who does not own a post can neither update nor delete it: both
      answer 403 and leave the table exactly as it was. */
  lemma NonOwnerChangesNothing(posts: map<int, Post>, id: int, body: PostCreate, caller: Caller)
    requires PostsKeyed(posts) && id in posts && posts[id].ownerId != caller.id
    ensures UpdateStep(posts, id, body, caller) == Step(Forbidden, posts)
    ensures DeleteStep(posts, id, caller) == Step(Forbidden, posts)
  {
  }

  /** User A creates a post; user B's update is refused with 403; A's update
      succeeds and a later read shows A's new title and content. */
  lemma OwnershipScenario(posts: map<int, Post>, pid: int, a: Caller, b: Caller)
    requires PostsKeyed(posts) && pid !in posts && a.id != b.id
    ensures var created := CreateStep(posts, pid, a, PostCreate("T", "C", true)).posts;
      && UpdateStep(created, pid, PostCreate("T2", "C2", true), b) == Step(Forbidden, created)
      && UpdateStep(created, pid, PostCreate("T2", "C2", true), a).result.Ok?
      && ReadPost(UpdateStep(created, pid, PostCreate("T2", "C2", true), a).posts, pid, b)
         == Ok(PostOut(Post(pid, a.id, "T2", "C2", true)))
  {
  }

  /** One request to the `/posts` router. */
  datatype Request =
    | ListPosts(limit: int, skip: int, search: Option<string>)
    | CreatePostRequest(body: PostCreate)
    | ReadPostRequest(id: int)
    | UpdatePostRequest(id: int, body: PostCreate)
    | DeletePostRequest(id: int)

  /** A snapshot of a `Session`'s posts half, as a value: its `posts` field
      and its `nextPostId` counter. */
  datatype Table = Table(posts: map<int, Post>, nextId: int)

  /** The posts half of `Session.Valid()`, on a snapshot. */
  ghost predicate Consistent(t: Table)
  {
    PostsKeyed(t.posts) && KeysBelow(t.posts, t.nextId)
  }

  /** The table after one request of `caller`. A request keeps every post
      that `caller` does not own, never changes an owner, and every post it
      adds belongs to `caller`. */
  function Apply(t: Table, caller: Caller, req: Request): (after: Table)
    requires Consistent(t)
    ensures Consistent(after)
    ensures forall k | k in t.posts && t.posts[k].ownerId != caller.id :: k in after.posts && after.posts[k] == t.posts[k]
    ensures forall k | k in t.posts && k in after.posts :: after.posts[k].ownerId == t.posts[k].ownerId
    ensures forall k | k in after.posts && k !in t.posts :: after.posts[k].ownerId == caller.id
  {
    match req
    case ListPosts(_, _, _) => t
    case ReadPostRequest(_) => t
    case CreatePostRequest(body) => Table(CreateStep(t.posts, t.nextId, caller, body).posts, t.nextId + 1)
    case UpdatePostRequest(id, body) => Table(UpdateStep(t.posts, id, body, caller).posts, t.nextId)
    case DeletePostRequest(id) => Table(DeleteStep(t.posts, id, caller).posts, t.nextId)
  }

  /** The table after `caller`'s requests have been served one after another. */
  function Serve(t: Table, caller: Caller, requests: seq<Request>): (after: Table)
    requires Consistent(t)
    ensures Consistent(after)
    decreases |requests|
  {
    if requests == [] then t else Serve(Apply(t, caller, requests[0]), caller, requests[1..])
  }

  /** However many requests one caller makes, a post somebody else owns is
      still there afterwards, unchanged. */
  lemma {:induction false} OthersPostsUntouched(t: Table, caller: Caller, requests: seq<Request>)
    requires Consistent(t)
    ensures forall k | k in t.posts && t.posts[k].ownerId != caller.id ::
      k in Serve(t, caller, requests).posts && Serve(t, caller, requests).posts[k] == t.posts[k]
    decreases |requests|
  {
    if requests != [] {
      var next := Apply(t, caller, requests[0]);
      OthersPostsUntouched(next, caller, requests[1..]);
    }
  }

  /** However many requests one caller makes, every post that was not there
      before belongs to that caller, and no surviving post changed owner. */
  lemma {:induction false} OwnersStable(t: Table, caller: Caller, requests: seq<Request>)
    requires Consistent(t)
    ensures forall k | k in t.posts && k in Serve(t, caller, requests).posts ::
      Serve(t, caller, requests).posts[k].ownerId == t.posts[k].ownerId
    ensures forall k | k in Serve(t, caller, requests).posts && k !in t.posts ::
      Serve(t, caller, requests).posts[k].ownerId == caller.id
    decreases |requests|
  {
    if requests != [] {
      var next := Apply(t, caller, requests[0]);
      OwnersStable(next, caller, requests[1..]);
    }
  }
}
