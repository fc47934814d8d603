# Posts and users routers of a small blog backend, modelled in Dafny

The backend exposes two resources over HTTP. Posts can be listed, created, read,
updated and deleted. A post belongs to the user who created it, and only that user
may update or delete it. Users can be registered, listed and read by id. A new
user's password is hashed before it is stored.

This model covers the two routers. The database session is a `Session` object.
Its `posts` and `users` fields are maps from primary key to row. Its `nextPostId`
and `nextUserId` fields stand in for the database's id sequences.

- Read-only handlers are functions over the tables: `get_post_by_id`,
  `check_post_owner`, `get_posts`, `read_post`, `get_users` and `get_user`.
- Handlers that change the database are methods with `modifies db`:
  `create_post`, `update_post`, `delete_post` and `create_user`.
- Each post-changing method is proved equal to a pure step function:
  `CreateStep`, `UpdateStep` or `DeleteStep`. These functions carry the access
  rules.
  - A missing id answers `NotFound` (404), before any ownership check.
  - A caller who does not own the post gets `Forbidden` (403), and the table is
    unchanged.
  - Only the post's own key is ever touched.
- The `setattr` loop of `update_post` is the method `UpdateFields`. It is a loop
  over the items of the body.
- `PostProperties` connects several requests. It proves round trips (create then
  read, update then read, delete twice) and the scenario with two users. It also
  proves that any number of requests by one caller leaves every post owned by
  someone else in place and unchanged.

Modules: `Models` (records and outcomes), `Database` (the session, primary-key
integrity, listing order), `PostRouter`, `PostProperties`, `UserRouter`.

## Model

| member | source | states |
|---|---|---|
| `Database.Session.constructor` | app/routers/post.py:28 | The session a handler receives, here over empty tables: primary-key integrity holds and both id counters are above every stored key. |
| `Database.All` | app/routers/post.py:34 | `query(...).all()`: as many rows as the table holds, the i-th being the row stored under the i-th key in ascending order. |
| `PostRouter.GetPostById` | app/routers/post.py:14-16 | Returns a stored post exactly when some row's `id` equals the requested id, and that row is what it returns. Absent otherwise. Reads only, so the store is unchanged. |
| `PostRouter.CheckPostOwner` | app/routers/post.py:19-23 | Answers `Forbidden` exactly when `post.owner_id != caller.id`, and `Ok` (no effect) exactly when they are equal. |
| `PostRouter.AllPosts` | app/routers/post.py:34 | `query(Post).all()` returns as many rows as are stored. Every row is a stored post, every stored post appears, and ids strictly increase, so there are no duplicates. |
| `PostRouter.GetPosts` | app/routers/post.py:26-35 | One `{post: p}` item per stored post: every stored post is listed, nothing else is listed, no post is listed twice. `limit`, `skip` and `search` do not affect the result. |
| `PostRouter.Wrapped` | app/routers/post.py:35 | The list comprehension `[{"post": post} for post in results]`: one item per result, in the same order, each wrapping that result. |
| `PostRouter.ReadPost` | app/routers/post.py:51-62 | An absent id answers `NotFound`. A present id answers that exact stored post, wrapped, whoever the caller is. Never `Forbidden`. |
| `PostRouter.NewPost` | app/routers/post.py:44 | `Post(owner_id=current_user.id, **post.dict())`: the row has the given id, the caller as owner, and every item of the body's `dict()` holds of it. |
| `PostRouter.CreateStep` | app/routers/post.py:44-48 | The new post has the fresh id and `owner_id` = caller's id, and its title/content/published come from the body. The table gains exactly that key. Every existing post is unchanged. |
| `PostRouter.DeleteStep` | app/routers/post.py:71-79 | A missing id gives `NotFound`, never `Forbidden`. A non-owner gets `Forbidden` and the table is unchanged. The owner gets `Ok` and exactly that key is removed. Every other post is unchanged. |
| `PostRouter.UpdateStep` | app/routers/post.py:89-99 | A missing id gives `NotFound`, never `Forbidden`. A non-owner gets `Forbidden` and the table is unchanged. The owner's update overwrites title/content/published from the body, keeps `id` and `owner_id`, returns the stored result, and leaves every other post unchanged. |
| `PostRouter.Items` | app/routers/post.py:95 | `updated_post.dict().items()`: three assignments, and a post satisfies all of them exactly when its title, content and published equal the body's. |
| `PostRouter.SetAttr` | app/routers/post.py:96 | `setattr(post, field, value)`: afterwards the named field holds the value; `id`, `owner_id` and the other fields keep theirs. |
| `PostRouter.Overwritten` | app/routers/post.py:95-96 | The post after the whole loop: same `id` and `owner_id`, and every item of the body's `dict()` holds of it. |
| `PostRouter.UpdateFields` | app/routers/post.py:95-96 | After the `setattr` loop over the body's items, every body field has been copied onto the post, and its `id` and `owner_id` are as before. |
| `PostRouter.CreatePost` | app/routers/post.py:38-48 | The new row takes the next key, which is fresh, and the counter advances by one. It is owned by the caller. The new table is `CreateStep`'s. The created post reads back as returned. The users table is unchanged. |
| `PostRouter.DeletePost` | app/routers/post.py:65-79 | The answer and the new posts table are `DeleteStep`'s. The users table and id counters are unchanged. |
| `PostRouter.UpdatePost` | app/routers/post.py:82-99 | The answer and the new posts table are `UpdateStep`'s. The users table and id counters are unchanged. |
| `PostProperties.CreateThenRead` | app/routers/post.py:44-62 | A created post, read by any caller, comes back with the fresh id, the creator as owner and the body's fields. |
| `PostProperties.CreateThenList` | app/routers/post.py:34-48 | After a create, the listing has exactly one more item, and the new post is among the items. |
| `PostProperties.UpdateThenRead` | app/routers/post.py:89-99 | After the owner's update, a read returns the post with the body's fields and the original id and owner. |
| `PostProperties.DeleteTwice` | app/routers/post.py:71-78 | After the owner has deleted an id, deleting it again (by anyone) answers `NotFound` and changes nothing. Reading it answers `NotFound`. |
| `PostProperties.NonOwnerChangesNothing` | app/routers/post.py:94-97 | Update and delete by a non-owner both answer `Forbidden` with the table exactly as before. |
| `PostProperties.OwnershipScenario` | app/routers/post.py:44-99 | A creates a post. B's update answers 403 and changes nothing. A's update succeeds, and a later read shows title "T2" and content "C2". |
| `PostProperties.Apply` | app/routers/post.py:38-99 | Any single request keeps every post the caller does not own. It never changes a post's owner. Every post it adds is owned by the caller. |
| `PostProperties.OthersPostsUntouched` | app/routers/post.py:76-97 | However many requests one caller makes, every post owned by someone else is still present and unchanged. |
| `PostProperties.OwnersStable` | app/routers/post.py:44-97 | However many requests one caller makes, no surviving post changes owner, and every post not there before belongs to the caller. |
| `UserRouter.AllUsers` | app/routers/user.py:31 | `query(User).all()` returns every stored user exactly once, with strictly increasing ids, and nothing else. |
| `UserRouter.GetUsers` | app/routers/user.py:29-32 | Every stored user is listed, only stored users are listed, and none twice. |
| `UserRouter.GetUser` | app/routers/user.py:35-42 | `NotFound` exactly when no user has that id. Otherwise the user whose id matches. Never `Forbidden`. |
| `UserRouter.CreateUser` | app/routers/user.py:16-26 | The stored password is `hash(password)`, not the plaintext, and the email comes from the request. The new row takes a fresh key, the counter advances by one, and the users table gains exactly that row. The new user reads back by id and appears in the listing. Existing users and the posts table are unchanged. |

## Left out

- Routing, dependency injection, status codes and response serialisation are not modelled. The `PostOut` and `UserOut` schemas are not part of this model. So whether responses include the password cannot be decided from this code. `CreateUser` returns the stored row, hashed password included.
- Session mechanics (`add`, `commit`, `refresh`, rollback on failure) are replaced by direct updates of the table maps. Every handler is one atomic step.
- `UpdatePost`: the source mutates the ORM object loaded from the session, which aliases the stored row. The model copies the fields onto a value and writes that value back under the same key. The result is the same, but object identity is not modelled.
- The `created_at` column and column defaults are not modelled. Ids come from counters in the session. The default `published = true` is assumed to be applied when the body is parsed, so every body carries all three fields.
- Token verification (`oauth2.get_current_user`) and its Unauthorized failure are external. The caller identity is an input.
- `utils.hash` is external. `CreateUser` takes it as a parameter `hash: string -> string`.
- Email uniqueness and foreign-key constraints come from the database models, which are not part of this model. A duplicate email would violate the database's uniqueness constraint; the router has no branch for it, so the model has none.
- `GetPosts` ignores `limit`, `skip` and `search`, as the code does.
- Listing order: a query without ORDER BY has no defined row order. The model fixes it as ascending primary key.
- Ids are unbounded integers. Database integer widths are not modelled.
- Concurrent requests are not modelled. Their isolation is the database's job.
