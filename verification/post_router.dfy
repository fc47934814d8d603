/** The `/posts` router: listing, creating, reading, updating and deleting
    posts, where only a post's owner may update or delete it. */
module PostRouter {
  import opened Models
  import opened Database

  /** `get_post_by_id`: the first row whose `id` column equals `postId`, if any. */
  function GetPostById(posts: map<int, Post>, postId: int): (r: Option<Post>)
    requires PostsKeyed(posts)
    ensures r.None? <==> forall k | k in posts :: posts[k].id != postId
    ensures r.Some? ==> r.value.id == postId && r.value in posts.Values
    ensures r.Some? <==> postId in posts
    ensures r.Some? ==> r.value == posts[postId]
  {
    if postId in posts then Some(posts[postId]) else None
  }

  /** `check_post_owner`: 403 when the caller does not own the post, otherwise no effect. */
  function CheckPostOwner(post: Post, caller: Caller): (r: Result<()>)
    ensures r.Forbidden? <==> post.ownerId != caller.id
    ensures r.Ok? <==> post.ownerId == caller.id
  {
    if post.ownerId != caller.id then Forbidden else Ok(())
  }

  /** `query(Post).all()` returns every stored post exactly once, in
      ascending id order. */
  lemma AllPosts(posts: map<int, Post>)
    requires PostsKeyed(posts)
    ensures |All(posts)| == |posts|
    ensures forall i | 0 <= i < |All(posts)| :: All(posts)[i].id in posts && posts[All(posts)[i].id] == All(posts)[i]
    ensures forall i, j | 0 <= i < j < |All(posts)| :: All(posts)[i].id < All(posts)[j].id
    ensures forall k | k in posts :: exists i | 0 <= i < |All(posts)| :: All(posts)[i] == posts[k]
  {
    var rows, ks := All(posts), SortedKeys(posts.Keys);
    forall i | 0 <= i < |rows| ensures rows[i].id == ks[i] && ks[i] in posts && rows[i] == posts[ks[i]] {
    }
    forall i, j | 0 <= i < j < |rows| ensures rows[i].id < rows[j].id {
      assert ks[i] < ks[j];
    }
    forall k | k in posts ensures rows[IndexOf(ks, k)] == posts[k] {
    }
  }

  /** `get_posts`: every stored post, each wrapped as `{"post": post}`. The
      paging and search arguments are accepted and ignored, as in the query. */
  function GetPosts(posts: map<int, Post>, limit: int, skip: int, search: Option<string>): (r: seq<PostOut>)
    requires PostsKeyed(posts)
    ensures |r| == |posts|
    ensures forall i | 0 <= i < |r| :: r[i].post.id in posts && posts[r[i].post.id] == r[i].post
    ensures forall k | k in posts :: exists i | 0 <= i < |r| :: r[i] == PostOut(posts[k])
    ensures forall i, j | 0 <= i < j < |r| :: r[i].post.id < r[j].post.id
  {
    var results := All(posts);
    AllPosts(posts);
    Wrapped(results)
  }

  /** The list comprehension `[{"post": post} for post in results]`. */
  function Wrapped(results: seq<Post>): (r: seq<PostOut>)
    ensures |r| == |results|
    ensures forall i | 0 <= i < |results| :: r[i] == PostOut(results[i])
  {
    if results == [] then [] else [PostOut(results[0])] + Wrapped(results[1..])
  }

  /** `read_post`: 404 for an absent id, otherwise the stored post; any caller may read. */
  function ReadPost(posts: map<int, Post>, id: int, caller: Caller): (r: Result<PostOut>)
    requires PostsKeyed(posts)
    ensures r.NotFound? <==> id !in posts
    ensures r.Ok? ==> id in posts && r.value == PostOut(posts[id])
    ensures !r.Forbidden?
  {
    match GetPostById(posts, id)
    case None => NotFound
    case Some(post) => Ok(PostOut(post))
  }

  /** A handler's answer together with the posts table it leaves behind. */
  datatype Step<T> = Step(result: Result<T>, posts: map<int, Post>)

  /** The row `Post(owner_id=caller.id, **body.dict())` receives once the
      database has given it the key `id`. */
  function NewPost(id: int, caller: Caller, body: PostCreate): (p: Post)
    ensures p.id == id && p.ownerId == caller.id
    ensures Satisfies(p, Items(body))
  {
    Post(id, caller.id, body.title, body.content, body.published)
  }

  /** What `create_post` does to the table when the database assigns `newId`. */
  function CreateStep(posts: map<int, Post>, newId: int, caller: Caller, body: PostCreate): (s: Step<PostOut>)
    requires PostsKeyed(posts) && newId !in posts
    ensures s.result.Ok?
    ensures s.result.value.post.id == newId && s.result.value.post.ownerId == caller.id
    ensures s.result.value.post.title == body.title && s.result.value.post.content == body.content
    ensures s.result.value.post.published == body.published
    ensures s.posts.Keys == posts.Keys + {newId} && s.posts[newId] == s.result.value.post
    ensures forall k | k in posts :: s.posts[k] == posts[k]
    ensures PostsKeyed(s.posts)
  {
    var post := NewPost(newId, caller, body);
    Step(Ok(PostOut(post)), posts[newId := post])
  }

  /** What `delete_post` does: 404 before 403, and only the owner's delete
      removes the row. */
  function DeleteStep(posts: map<int, Post>, id: int, caller: Caller): (s: Step<()>)
    requires PostsKeyed(posts)
    ensures s.result.NotFound? <==> id !in posts
    ensures s.result.Forbidden? <==> id in posts && posts[id].ownerId != caller.id
    ensures s.result.Ok? <==> id in posts && posts[id].ownerId == caller.id
    ensures s.result.Ok? ==> s.posts.Keys == posts.Keys - {id}
    ensures !s.result.Ok? ==> s.posts == posts
    ensures forall k | k in posts && k != id :: k in s.posts && s.posts[k] == posts[k]
    ensures PostsKeyed(s.posts)
  {
    match GetPostById(posts, id)
    case None => Step(NotFound, posts)
    case Some(post) =>
      if CheckPostOwner(post, caller).Forbidden? then Step(Forbidden, posts)
      else Step(Ok(()), posts - {post.id})
  }

  /** The post after the `setattr` loop of `update_post` has copied every
      field of the body onto it. */
  function Overwritten(post: Post, body: PostCreate): (p: Post)
    ensures p.id == post.id && p.ownerId == post.ownerId
    ensures Satisfies(p, Items(body))
  {
    post.(title := body.title, content := body.content, published := body.published)
  }

  /** What `update_post` does: 404 before 403, and only the owner's update
      changes the row, overwriting every body field in place. */
  function UpdateStep(posts: map<int, Post>, id: int, body: PostCreate, caller: Caller): (s: Step<PostOut>)
    requires PostsKeyed(posts)
    ensures s.result.NotFound? <==> id !in posts
    ensures s.result.Forbidden? <==> id in posts && posts[id].ownerId != caller.id
    ensures s.result.Ok? <==> id in posts && posts[id].ownerId == caller.id
    ensures !s.result.Ok? ==> s.posts == posts
    ensures s.result.Ok? ==>
      && s.posts.Keys == posts.Keys
      && s.result.value.post == s.posts[id]
      && s.posts[id].id == id && s.posts[id].ownerId == posts[id].ownerId
      && s.posts[id].title == body.title && s.posts[id].content == body.content
      && s.posts[id].published == body.published
    ensures forall k | k in posts && k != id :: k in s.posts && s.posts[k] == posts[k]
    ensures PostsKeyed(s.posts)
  {
    match GetPostById(posts, id)
    case None => Step(NotFound, posts)
    case Some(post) =>
      if CheckPostOwner(post, caller).Forbidden? then Step(Forbidden, posts)
      else
        var updated := Overwritten(post, body);
        Step(Ok(PostOut(updated)), posts[post.id := updated])
  }

  /** One `setattr(post, field, value)` of the update loop: the field named
      and the value the body holds for it. */
  datatype Assignment = SetTitle(title: string) | SetContent(content: string) | SetPublished(published: bool)

  /** `body.dict().items()`: one assignment per field of the body, in declaration order. */
  function Items(body: PostCreate): (items: seq<Assignment>)
    ensures |items| == 3
    ensures forall p :: Satisfies(p, items) <==>
      p.title == body.title && p.content == body.content && p.published == body.published
  {
    var items := [SetTitle(body.title), SetContent(body.content), SetPublished(body.published)];
    assert forall p :: Satisfies(p, items) <==> Holds(p, items[0]) && Holds(p, items[1]) && Holds(p, items[2]);
    items
  }

  /** `setattr(post, field, value)`: the named field takes the value and
      every other column keeps its own. */
  function SetAttr(post: Post, a: Assignment): (r: Post)
    ensures Holds(r, a)
    ensures r.id == post.id && r.ownerId == post.ownerId
    ensures !a.SetTitle? ==> r.title == post.title
    ensures !a.SetContent? ==> r.content == post.content
    ensures !a.SetPublished? ==> r.published == post.published
  {
    match a
    case SetTitle(t) => post.(title := t)
    case SetContent(c) => post.(content := c)
    case SetPublished(b) => post.(published := b)
  }

  /** The field that `a` names holds the value `a` carries. */
  predicate Holds(post: Post, a: Assignment)
  {
    match a
    case SetTitle(t) => post.title == t
    case SetContent(c) => post.content == c
    case SetPublished(b) => post.published == b
  }

  /** Every assignment in `items` holds of `post`. */
  predicate Satisfies(post: Post, items: seq<Assignment>)
  {
    forall a | a in items :: Holds(post, a)
  }

  /** The `setattr` loop of `update_post`: every field of the body is copied
      onto the loaded post; its key and owner stay as they were. */
  method UpdateFields(post: Post, body: PostCreate) returns (p: Post)
    ensures p.id == post.id && p.ownerId == post.ownerId
    ensures p.title == body.title && p.content == body.content && p.published == body.published
  {
    var items := Items(body);
    p := post;
    for i := 0 to |items|
      invariant p.id == post.id && p.ownerId == post.ownerId
      invariant forall j | 0 <= j < i :: Holds(p, items[j])
    {
      p := SetAttr(p, items[i]);
    }
    assert Holds(p, items[0]) && Holds(p, items[1]) && Holds(p, items[2]);
  }

  /** `create_post`: the new row is owned by the caller and takes the next key. */
  method CreatePost(body: PostCreate, db: Session, caller: Caller) returns (r: PostOut)
    requires db.Valid()
    modifies db
    ensures db.Valid()
    ensures r.post.id == old(db.nextPostId) && r.post.id !in old(db.posts)
    ensures db.nextPostId == old(db.nextPostId) + 1
    ensures r.post.ownerId == caller.id
    ensures Step(Ok(r), db.posts) == CreateStep(old(db.posts), r.post.id, caller, body)
    ensures forall c :: ReadPost(db.posts, r.post.id, c) == Ok(r)
    ensures db.users == old(db.users) && db.nextUserId == old(db.nextUserId)
  {
    var newPost := NewPost(db.nextPostId, caller, body);
    db.posts := db.posts[newPost.id := newPost];
    db.nextPostId := db.nextPostId + 1;
    r := PostOut(newPost);
  }

  /** `delete_post`: 404, then 403, then the row is removed. */
  method DeletePost(id: int, db: Session, caller: Caller) returns (r: Result<()>)
    requires db.Valid()
    modifies db
    ensures db.Valid()
    ensures Step(r, db.posts) == DeleteStep(old(db.posts), id, caller)
    ensures db.users == old(db.users)
    ensures db.nextPostId == old(db.nextPostId) && db.nextUserId == old(db.nextUserId)
  {
    var found := GetPostById(db.posts, id);
    if found.None? {
      return NotFound;
    }
    var post := found.value;
    if CheckPostOwner(post, caller).Forbidden? {
      return Forbidden;
    }
    db.posts := db.posts - {post.id};
    r := Ok(());
  }

  /** `update_post`: 404, then 403, then the body is copied onto the stored post. */
  method UpdatePost(id: int, body: PostCreate, db: Session, caller: Caller) returns (r: Result<PostOut>)
    requires db.Valid()
    modifies db
    ensures db.Valid()
    ensures Step(r, db.posts) == UpdateStep(old(db.posts), id, body, caller)
    ensures db.users == old(db.users)
    ensures db.nextPostId == old(db.nextPostId) && db.nextUserId == old(db.nextUserId)
  {
    var found := GetPostById(db.posts, id);
    if found.None? {
      return NotFound;
    }
    var post := found.value;
    if CheckPostOwner(post, caller).Forbidden? {
      return Forbidden;
    }
    post := UpdateFields(post, body);
    assert post == Overwritten(found.value, body);
    db.posts := db.posts[post.id := post];
    r := Ok(PostOut(post));
  }
}
