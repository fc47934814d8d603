/** The database session, seen as two tables keyed by primary key, and the
    order in which a query returns the rows of a table. */
module Database {
  import opened Models

  /** Primary-key integrity of the posts table: every row is stored under its own id. */
  ghost predicate PostsKeyed(posts: map<int, Post>)
  {
    forall k | k in posts :: posts[k].id == k
  }

  /** Primary-key integrity of the users table. */
  ghost predicate UsersKeyed(users: map<int, User>)
  {
    forall k | k in users :: users[k].id == k
  }

  /** Every key of the table is below `n`: the next key the database hands out is fresh. */
  ghost predicate KeysBelow<V>(table: map<int, V>, n: int)
  {
    forall k | k in table :: k < n
  }

  predicate StrictlyIncreasing(s: seq<int>)
  {
    forall i, j | 0 <= i < j < |s| :: s[i] < s[j]
  }

  lemma NoMember(keys: set<int>)
    requires forall x :: x !in keys
    ensures keys == {}
  {
    var none: set<int> := {};
    assert forall x :: x in keys <==> x in none;
  }

  /** Some key of a non-empty table. */
  ghost function Pick(keys: set<int>): (x: int)
    requires keys != {}
    ensures x in keys
  {
    if forall x :: x !in keys then NoMember(keys); assert false; 0
    else var x :| x in keys; x
  }

  predicate IsLeast(k: int, keys: set<int>)
  {
    k in keys && forall j | j in keys :: k <= j
  }

  ghost function LeastOf(keys: set<int>): (k: int)
    requires keys != {}
    ensures IsLeast(k, keys)
    decreases |keys|
  {
    var x := Pick(keys);
    var rest := keys - {x};
    assert forall j | j in keys :: j == x || j in rest;
    if rest == {} then x
    else
      var m := LeastOf(rest);
      if x < m then x else m
  }

  /** The smallest key of a non-empty table. */
  function Least(keys: set<int>): (k: int)
    requires keys != {}
    ensures IsLeast(k, keys)
  {
    var w := LeastOf(keys);
    var k :| IsLeast(k, keys);
    k
  }

  /** The position of `k` in `ks`. */
  function IndexOf(ks: seq<int>, k: int): (i: nat)
    requires k in ks
    ensures i < |ks| && ks[i] == k
  {
    if ks[0] == k then 0 else 1 + IndexOf(ks[1..], k)
  }

  /** The keys of a table in ascending order. A query without ORDER BY has no
      defined row order; this model fixes it as ascending primary key. */
  function SortedKeys(keys: set<int>): (ks: seq<int>)
    ensures |ks| == |keys|
    ensures forall k :: k in ks <==> k in keys
    ensures StrictlyIncreasing(ks)
    decreases |keys|
  {
    if keys == {} then []
    else
      var k := Least(keys);
      [k] + SortedKeys(keys - {k})
  }

  /** The rows stored under the keys `ks`, in that order. */
  function RowsAt<V>(table: map<int, V>, ks: seq<int>): (rows: seq<V>)
    requires forall i | 0 <= i < |ks| :: ks[i] in table
    ensures |rows| == |ks|
    ensures forall i | 0 <= i < |ks| :: rows[i] == table[ks[i]]
  {
    if ks == [] then [] else [table[ks[0]]] + RowsAt(table, ks[1..])
  }

  /** `query(...).all()`: every row of the table, in ascending key order. */
  function All<V>(table: map<int, V>): (rows: seq<V>)
    ensures |rows| == |table|
    ensures forall i | 0 <= i < |rows| :: SortedKeys(table.Keys)[i] in table
    ensures forall i | 0 <= i < |rows| :: rows[i] == table[SortedKeys(table.Keys)[i]]
  {
    var ks := SortedKeys(table.Keys);
    assert |table.Keys| == |table|;
    RowsAt(table, ks)
  }

  /** One database session. The two maps stand for the `posts` and `users`
      tables; `nextPostId` and `nextUserId` stand for the sequences the
      database draws new primary keys from. */
  class Session {
    var posts: map<int, Post>
    var users: map<int, User>
    var nextPostId: int
    var nextUserId: int

    ghost predicate Valid()
      reads this
    {
      && PostsKeyed(posts)
      && UsersKeyed(users)
      && KeysBelow(posts, nextPostId)
      && KeysBelow(users, nextUserId)
    }

    /** An empty database. */
    constructor ()
      ensures Valid()
      ensures posts == map[] && users == map[]
    {
      posts, users := map[], map[];
      nextPostId, nextUserId := 1, 1;
    }
  }
}
