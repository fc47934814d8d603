/** The `/users` router: registering a user with a hashed password, listing
    users and reading one by id. */
module UserRouter {
  import opened Models
  import opened Database

  /** `query(User).all()` returns every stored user exactly once, in
      ascending id order. */
  lemma AllUsers(users: map<int, User>)
    requires UsersKeyed(users)
    ensures |All(users)| == |users|
    ensures forall i | 0 <= i < |All(users)| :: All(users)[i].id in users && users[All(users)[i].id] == All(users)[i]
    ensures forall i, j | 0 <= i < j < |All(users)| :: All(users)[i].id < All(users)[j].id
    ensures forall k | k in users :: exists i | 0 <= i < |All(users)| :: All(users)[i] == users[k]
  {
    var rows, ks := All(users), SortedKeys(users.Keys);
    forall i | 0 <= i < |rows| ensures rows[i].id == ks[i] && ks[i] in users && rows[i] == users[ks[i]] {
    }
    forall i, j | 0 <= i < j < |rows| ensures rows[i].id < rows[j].id {
      assert ks[i] < ks[j];
    }
    forall k | k in users ensures rows[IndexOf(ks, k)] == users[k] {
    }
  }

  /** `get_users`: every stored user, each once. */
  function GetUsers(users: map<int, User>): (r: seq<User>)
    requires UsersKeyed(users)
    ensures |r| == |users|
    ensures forall i | 0 <= i < |r| :: r[i].id in users && users[r[i].id] == r[i]
    ensures forall k | k in users :: users[k] in r
    ensures forall i, j | 0 <= i < j < |r| :: r[i].id < r[j].id
  {
    AllUsers(users);
    All(users)
  }

  /** `get_user`: the user whose `id` column equals `id`, or 404. */
  function GetUser(users: map<int, User>, id: int): (r: Result<User>)
    requires UsersKeyed(users)
    ensures r.NotFound? <==> forall k | k in users :: users[k].id != id
    ensures r.Ok? ==> r.value.id == id && id in users && users[id] == r.value
    ensures !r.Forbidden?
  {
    if id in users then Ok(users[id]) else NotFound
  }

  /** `create_user`: the request's password is replaced by its hash, then the
      request becomes a new row under the next key. `hash` stands for the
      hashing utility, which is not part of this model. */
  method CreateUser(user: UserCreate, db: Session, hash: string -> string) returns (newUser: User)
    requires db.Valid()
    modifies db
    ensures db.Valid()
    ensures newUser.password == hash(user.password) && newUser.email == user.email
    ensures newUser.id == old(db.nextUserId) && newUser.id !in old(db.users)
    ensures db.nextUserId == old(db.nextUserId) + 1
    ensures db.users == old(db.users)[newUser.id := newUser]
    ensures GetUser(db.users, newUser.id) == Ok(newUser)
    ensures forall k | k in old(db.users) :: GetUser(db.users, k) == GetUser(old(db.users), k)
    ensures |GetUsers(db.users)| == |old(GetUsers(db.users))| + 1 && newUser in GetUsers(db.users)
    ensures db.posts == old(db.posts) && db.nextPostId == old(db.nextPostId)
  {
    var request := user;
    var hashedPassword := hash(request.password);
    request := request.(password := hashedPassword);
    newUser := User(db.nextUserId, request.email, request.password);
    db.users := db.users[newUser.id := newUser];
    db.nextUserId := db.nextUserId + 1;
    assert db.users.Keys == old(db.users).Keys + {newUser.id};
  }
}
