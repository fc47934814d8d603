/** The records of the two tables, the request bodies and response shapes the
    routers exchange, and the outcome of a handler. */
module Models {

  /** A row of the `posts` table. The database also stamps `created_at`; that
      column is not modelled. */
  datatype Post = Post(id: int, ownerId: int, title: string, content: string, published: bool)

  /** The body of `POST /posts` and `PUT /posts/{id}`. `published` may be
      omitted by the client and then defaults to true, so a parsed body always
      carries all three fields. */
  datatype PostCreate = PostCreate(title: string, content: string, published: bool)

  /** The response wrapper `{"post": post}`. */
  datatype PostOut = PostOut(post: Post)

  /** A row of the `users` table; `password` holds whatever the router stored. */
  datatype User = User(id: int, email: string, password: string)

  /** The body of `POST /users`. */
  datatype UserCreate = UserCreate(email: string, password: string)

  /** The identity the token layer resolves for the current request. */
  datatype Caller = Caller(id: int)

  datatype Option<T> = None | Some(value: T)

  /** What a handler answers: a value, or one of the two HTTP errors the
      routers raise themselves (404 and 403). */
  datatype Result<T> = Ok(value: T) | NotFound | Forbidden
}
