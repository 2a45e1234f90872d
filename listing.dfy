// The two admin list endpoints: an equality query on the collection, then
// sort("created_at", -1).  Both run behind get_admin_user (Access.AdminEndpoint)
// and change nothing.

module Listing {
  import opened Models

  /** A query parameter filters only when it is given and non-empty (the
      handlers test it with Python truthiness before adding it to the query). */
  predicate Given(q: Option<string>) {
    q.Some? && q.value != ""
  }

  // ---------------------------------------------------------------- ordering

  /** Newest first: `key` never increases along `xs`. */
  predicate NewestFirst<T>(xs: seq<T>, key: T -> int) {
    forall i, j :: 0 <= i < j < |xs| ==> key(xs[i]) >= key(xs[j])
  }

  /** Places `x` before the first element of `xs` whose key is not larger. */
  function Insert<T(!new)>(x: T, xs: seq<T>, key: T -> int): (r: seq<T>)
    ensures multiset(r) == multiset(xs) + multiset{x}
  {
    if xs == [] || key(x) >= key(xs[0]) then [x] + xs
    else
      assert xs == [xs[0]] + xs[1..];
      [xs[0]] + Insert(x, xs[1..], key)
  }

  /** The order of sort(key, -1); ties keep their collection order. */
  function SortNewestFirst<T(!new)>(xs: seq<T>, key: T -> int): (r: seq<T>)
    ensures multiset(r) == multiset(xs)
  {
    if xs == [] then []
    else
      assert xs == [xs[0]] + xs[1..];
      Insert(xs[0], SortNewestFirst(xs[1..], key), key)
  }

  lemma {:induction false} InsertKeepsOrder<T(!new)>(x: T, xs: seq<T>, key: T -> int)
    requires NewestFirst(xs, key)
    ensures NewestFirst(Insert(x, xs, key), key)
  {
    if xs != [] && key(x) < key(xs[0]) {
      var rest := Insert(x, xs[1..], key);
      InsertKeepsOrder(x, xs[1..], key);
      forall k | 0 <= k < |rest|
        ensures key(rest[k]) <= key(xs[0])
      {
        assert rest[k] in multiset(rest);
        assert rest[k] == x || rest[k] in multiset(xs[1..]);
        if rest[k] != x {
          var m :| 0 <= m < |xs[1..]| && xs[1..][m] == rest[k];
          assert xs[m + 1] == rest[k];
        }
      }
    }
  }

  lemma {:induction false} SortOrders<T(!new)>(xs: seq<T>, key: T -> int)
    ensures NewestFirst(SortNewestFirst(xs, key), key)
  {
    if xs != [] {
      SortOrders(xs[1..], key);
      InsertKeepsOrder(xs[0], SortNewestFirst(xs[1..], key), key);
    }
  }

  // ---------------------------------------------------------------- GET /admin/users

  function UserCreatedAt(u: User): int {
    u.createdAt
  }

  predicate UserSelected(status: Option<string>, u: User) {
    !Given(status) || u.status.Name() == status.value
  }

  function SelectUsers(users: seq<User>, status: Option<string>): seq<User> {
    Keep(users, (u: User) => UserSelected(status, u))
  }

  /** get_all_users: the users whose status is `status` (all of them when no
      status is given), newest first. */
  function ListUsers(db: Db, status: Option<string>): (r: seq<User>)
    ensures multiset(r) == multiset(SelectUsers(db.users, status))
  {
    SortNewestFirst(SelectUsers(db.users, status), UserCreatedAt)
  }

  /** The listing holds exactly the users that match, each as often as it is
      stored, newest first. */
  lemma ListUsersExact(db: Db, status: Option<string>)
    ensures forall u :: u in ListUsers(db, status) <==> u in db.users && UserSelected(status, u)
    ensures NewestFirst(ListUsers(db, status), UserCreatedAt)
  {
    var r := ListUsers(db, status);
    KeepMembers(db.users, (u: User) => UserSelected(status, u));
    forall u
      ensures u in r <==> u in SelectUsers(db.users, status)
    {
      assert u in r <==> u in multiset(r);
    }
    SortOrders(SelectUsers(db.users, status), UserCreatedAt);
  }

  /** Without a status filter the listing is every user, reordered. */
  lemma ListAllUsers(db: Db, status: Option<string>)
    requires !Given(status)
    ensures multiset(ListUsers(db, status)) == multiset(db.users)
  {
    KeepEverything(db.users, (u: User) => UserSelected(status, u));
  }

  // --------------------------------------------------------- GET /admin/transactions

  function TransactionCreatedAt(t: Transaction): int {
    t.createdAt
  }

  predicate TransactionSelected(kind: Option<string>, status: Option<string>, t: Transaction) {
    && (!Given(kind) || t.kind.Name() == kind.value)
    && (!Given(status) || t.status.Name() == status.value)
  }

  function SelectTransactions(txns: seq<Transaction>, kind: Option<string>, status: Option<string>): seq<Transaction> {
    Keep(txns, (t: Transaction) => TransactionSelected(kind, status, t))
  }

  /** get_all_transactions: the transactions of type `kind` and status
      `status` (each filter applied only when given), newest first. */
  function ListTransactions(db: Db, kind: Option<string>, status: Option<string>): (r: seq<Transaction>)
    ensures multiset(r) == multiset(SelectTransactions(db.transactions, kind, status))
  {
    SortNewestFirst(SelectTransactions(db.transactions, kind, status), TransactionCreatedAt)
  }

  lemma ListTransactionsExact(db: Db, kind: Option<string>, status: Option<string>)
    ensures forall t :: t in ListTransactions(db, kind, status) <==>
      && t in db.transactions
      && (!Given(kind) || t.kind.Name() == kind.value)
      && (!Given(status) || t.status.Name() == status.value)
    ensures NewestFirst(ListTransactions(db, kind, status), TransactionCreatedAt)
  {
    var r := ListTransactions(db, kind, status);
    KeepMembers(db.transactions, (t: Transaction) => TransactionSelected(kind, status, t));
    forall t
      ensures t in r <==> t in SelectTransactions(db.transactions, kind, status)
    {
      assert t in r <==> t in multiset(r);
    }
    SortOrders(SelectTransactions(db.transactions, kind, status), TransactionCreatedAt);
  }

  /** The two filters compose: filtering by type and status at once is
      filtering by status the listing filtered by type. */
  lemma TransactionFiltersCompose(txns: seq<Transaction>, kind: Option<string>, status: Option<string>)
    ensures SelectTransactions(txns, kind, status)
         == Keep(SelectTransactions(txns, kind, None), (t: Transaction) => TransactionSelected(None, status, t))
  {
    KeepConjunction(txns, (t: Transaction) => TransactionSelected(kind, None, t),
                    (t: Transaction) => TransactionSelected(None, status, t),
                    (t: Transaction) => TransactionSelected(kind, status, t));
  }

  /** A status that no user document can hold selects nobody. */
  lemma UnknownStatusListsNobody(db: Db, status: string)
    requires forall s: UserStatus :: s.Name() != status
    requires status != ""
    ensures ListUsers(db, Some(status)) == []
  {
    forall i | 0 <= i < |db.users|
      ensures !UserSelected(Some(status), db.users[i])
    {
      assert db.users[i].status.Name() != status;
    }
    KeepNothing(db.users, (u: User) => UserSelected(Some(status), u));
  }
}
