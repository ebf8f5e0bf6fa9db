/**
 * The database as the services see it through `AppDbContext`: three tables
 * keyed by Id, the context's tracked view of them, and SaveChanges as the
 * point where the tracked view is committed. This module holds the values
 * and the queries; `Persistence` holds the objects.
 */
module Store {
  import opened Results
  import opened Seqs
  import opened Guids
  import opened Entities

  datatype Tables = Tables(users: seq<User>, refreshTokens: seq<RefreshToken>, orders: seq<Order>)

  function UserKey(u: User): Guid { u.id }
  function TokenKey(r: RefreshToken): Guid { r.id }
  function OrderKey(o: Order): Guid { o.id }

  /** The primary-key constraint on each table. */
  predicate KeysUnique(t: Tables)
  {
    DistinctKeys(t.users, UserKey) && DistinctKeys(t.refreshTokens, TokenKey) && DistinctKeys(t.orders, OrderKey)
  }

  /**
   * What one request's context sees: the tables it tracks (the stored rows it
   * has loaded, with its pending changes applied) and the stored tables.
   */
  datatype Scope = Scope(tracked: Tables, stored: Tables)

  /** A new request scope over stored tables `t`. */
  function Fresh(t: Tables): Scope
  {
    Scope(t, t)
  }

  /**
   * `SaveChangesAsync`: all pending changes are committed together, or none
   * is and DbUpdateException is thrown when a primary key would repeat.
   */
  function SaveChanges(s: Scope): (Result<()>, Scope)
  {
    if KeysUnique(s.tracked) then (Ok(()), Scope(s.tracked, s.tracked)) else (Err(DbUpdateException), s)
  }

  /** `FirstOrDefault(u => u.Id == id)`: the index of the first match, or |users|. */
  function UserWithId(users: seq<User>, id: Guid): (i: nat)
    ensures i <= |users|
    ensures i < |users| ==> users[i].id == id
    ensures forall j :: 0 <= j < i ==> users[j].id != id
  {
    FirstIndex(users, (u: User) => u.id == id)
  }

  /** `Where(u => u.Id == id)`, which `SingleOrDefault` inspects. */
  function UsersWithId(users: seq<User>, id: Guid): (r: seq<User>)
    ensures forall u :: u in r <==> u in users && u.id == id
  {
    Filter(users, (u: User) => u.id == id)
  }

  /** `FirstOrDefault(u => u.Username == name)`. */
  function UserNamed(users: seq<User>, name: string): (i: nat)
    ensures i <= |users|
    ensures i < |users| ==> users[i].username == name
    ensures forall j :: 0 <= j < i ==> users[j].username != name
  {
    FirstIndex(users, (u: User) => u.username == name)
  }

  /** `FirstOrDefault(rt => rt.Token == value && rt.UserId == userId)`. */
  function TokenMatch(rows: seq<RefreshToken>, value: string, userId: Guid): (i: nat)
    ensures i <= |rows|
    ensures i < |rows| ==> rows[i].token == value && rows[i].userId == userId
    ensures forall j :: 0 <= j < i ==> !(rows[j].token == value && rows[j].userId == userId)
  {
    FirstIndex(rows, (r: RefreshToken) => r.token == value && r.userId == userId)
  }

  /** `FirstOrDefault(rt => rt.UserId == userId)`. */
  function FirstTokenOf(rows: seq<RefreshToken>, userId: Guid): (i: nat)
    ensures i <= |rows|
    ensures i < |rows| ==> rows[i].userId == userId
    ensures forall j :: 0 <= j < i ==> rows[j].userId != userId
  {
    FirstIndex(rows, (r: RefreshToken) => r.userId == userId)
  }

  /** The rows `Where(rt => rt.UserId == userId).ExecuteDelete()` leaves behind. */
  function TokensNotOf(rows: seq<RefreshToken>, userId: Guid): (r: seq<RefreshToken>)
    ensures forall t :: t in r <==> t in rows && t.userId != userId
  {
    Filter(rows, (t: RefreshToken) => t.userId != userId)
  }

  /** `FirstOrDefault(o => o.Id == id && o.UserId == userId)`. */
  function OrderMatch(orders: seq<Order>, id: Guid, userId: Guid): (i: nat)
    ensures i <= |orders|
    ensures i < |orders| ==> orders[i].id == id && orders[i].userId == userId
    ensures forall j :: 0 <= j < i ==> !(orders[j].id == id && orders[j].userId == userId)
  {
    FirstIndex(orders, (o: Order) => o.id == id && o.userId == userId)
  }

  /** `Where(o => o.UserId == userId)`. */
  function OrdersOf(orders: seq<Order>, userId: Guid): (r: seq<Order>)
    ensures forall o :: o in r <==> o in orders && o.userId == userId
  {
    Filter(orders, (o: Order) => o.userId == userId)
  }

  /** The foreign key from `RefreshTokens.UserId` to `Users.Id`: every row names an existing user. */
  predicate TokenOwnersExist(t: Tables)
  {
    forall r :: r in t.refreshTokens ==> r.userId in Keys(t.users, UserKey)
  }

  /** Row `i` with its `Revoked` set to `at`. */
  function Revoke(rows: seq<RefreshToken>, i: nat, at: Time): (r: seq<RefreshToken>)
    requires i < |rows|
  {
    rows[i := rows[i].(revoked := Some(at))]
  }

  function RemoveAt<T>(rows: seq<T>, i: nat): seq<T>
    requires i < |rows|
  {
    rows[..i] + rows[i + 1..]
  }

  /** Setting a row's `Revoked` does not change which row a token lookup finds. */
  lemma TokenMatchRevoke(rows: seq<RefreshToken>, i: nat, at: Time, value: string, userId: Guid)
    requires i < |rows|
    ensures TokenMatch(Revoke(rows, i, at), value, userId) == TokenMatch(rows, value, userId)
  {
    var r := Revoke(rows, i, at);
    var a := TokenMatch(rows, value, userId);
    assert |r| == |rows|;
    assert forall k :: 0 <= k < |rows| ==> r[k].token == rows[k].token && r[k].userId == rows[k].userId;
  }

  /** A row added at the end is found only when no earlier row matches. */
  lemma TokenMatchAppend(rows: seq<RefreshToken>, row: RefreshToken, value: string, userId: Guid)
    ensures TokenMatch(rows + [row], value, userId) ==
      if TokenMatch(rows, value, userId) == |rows| && !(row.token == value && row.userId == userId) then |rows| + 1
      else TokenMatch(rows, value, userId)
  {
    var r := rows + [row];
    var a := TokenMatch(rows, value, userId);
    assert forall k :: 0 <= k < |rows| ==> r[k] == rows[k];
    assert r[|rows|] == row;
  }

  /** The first row of a user is the row that a lookup by its own value and that user finds. */
  lemma TokenMatchOfFirst(rows: seq<RefreshToken>, userId: Guid)
    requires FirstTokenOf(rows, userId) < |rows|
    ensures TokenMatch(rows, rows[FirstTokenOf(rows, userId)].token, userId) == FirstTokenOf(rows, userId)
  {
  }

  /** No user has the Id exactly when the `Where` it is looked up with is empty. */
  lemma UsersWithIdEmpty(users: seq<User>, id: Guid)
    ensures (forall j :: 0 <= j < |users| ==> users[j].id != id) <==> UsersWithId(users, id) == []
  {
    var r := UsersWithId(users, id);
    if r != [] {
      assert r[0] in r;
    }
  }

  /** Setting a row's `Revoked` changes no key. */
  lemma RevokeKeepsKeys(t: Tables, i: nat, at: Time)
    requires i < |t.refreshTokens|
    ensures Keys(Revoke(t.refreshTokens, i, at), TokenKey) == Keys(t.refreshTokens, TokenKey)
    ensures KeysUnique(t.(refreshTokens := Revoke(t.refreshTokens, i, at))) <==> KeysUnique(t)
  {
    DistinctUpdate(t.refreshTokens, i, t.refreshTokens[i].(revoked := Some(at)), TokenKey);
  }

  /** Adding a row to a table that satisfies its key constraint keeps it satisfied exactly when the row's Id is new. */
  lemma AddTokenKeys(t: Tables, row: RefreshToken)
    requires KeysUnique(t)
    ensures KeysUnique(t.(refreshTokens := t.refreshTokens + [row])) <==> row.id !in Keys(t.refreshTokens, TokenKey)
  {
    DistinctAppend(t.refreshTokens, row, TokenKey);
  }

  lemma AddUserKeys(t: Tables, u: User)
    requires KeysUnique(t)
    ensures KeysUnique(t.(users := t.users + [u])) <==> u.id !in Keys(t.users, UserKey)
  {
    DistinctAppend(t.users, u, UserKey);
  }

  lemma AddOrderKeys(t: Tables, o: Order)
    requires KeysUnique(t)
    ensures KeysUnique(t.(orders := t.orders + [o])) <==> o.id !in Keys(t.orders, OrderKey)
  {
    DistinctAppend(t.orders, o, OrderKey);
  }

  /** Editing an order's other columns changes no key. */
  lemma UpdateOrderKeys(t: Tables, i: nat, o: Order)
    requires i < |t.orders| && o.id == t.orders[i].id
    ensures KeysUnique(t.(orders := t.orders[i := o])) <==> KeysUnique(t)
  {
    DistinctUpdate(t.orders, i, o, OrderKey);
  }

  lemma RemoveOrderKeys(t: Tables, i: nat)
    requires i < |t.orders| && KeysUnique(t)
    ensures KeysUnique(t.(orders := RemoveAt(t.orders, i)))
  {
    DistinctRemove(t.orders, i, OrderKey);
  }

  lemma RemoveTokensKeys(t: Tables, userId: Guid)
    requires KeysUnique(t)
    ensures KeysUnique(t.(refreshTokens := TokensNotOf(t.refreshTokens, userId)))
  {
    DistinctFilter(t.refreshTokens, (r: RefreshToken) => r.userId != userId, TokenKey);
  }

  /** Under the key constraint, a row found by its Id is the only row with that Id. */
  lemma KeyedRowUnique(orders: seq<Order>, i: nat, o: Order)
    requires DistinctKeys(orders, OrderKey) && i < |orders|
    ensures o in orders && o.id == orders[i].id ==> o == orders[i]
  {
    if o in orders && o.id == orders[i].id {
      var j :| 0 <= j < |orders| && orders[j] == o;
      assert OrderKey(orders[j]) == OrderKey(orders[i]);
    }
  }
}

/**
 * The objects: the database, whose tables and open transaction outlive a
 * request, and a request's `AppDbContext`, which tracks the rows the request
 * loads and changes and writes them on SaveChanges.
 */
module Persistence {
  import opened Results
  import opened Guids
  import opened Entities
  import opened Store

  class Database {
    var tables: Tables
    /** The tables as they were when the open transaction began, if one is open. */
    var snapshot: Option<Tables>

    constructor(t: Tables)
      ensures tables == t && snapshot == None
    {
      tables := t;
      snapshot := None;
    }
  }

  class AppDbContext {
    const database: Database
    var tracked: Tables

    /** A new context over `database`, tracking nothing it has changed. */
    constructor(database: Database)
      ensures this.database == database && tracked == database.tables
    {
      this.database := database;
      tracked := database.tables;
    }

    function Current(): Scope
      reads this, database
    {
      Scope(tracked, database.tables)
    }

    method SaveChanges() returns (r: Result<()>)
      modifies database
      ensures (r, Current()) == Store.SaveChanges(old(Current()))
      ensures database.snapshot == old(database.snapshot)
    {
      if KeysUnique(tracked) {
        database.tables := tracked;
        r := Ok(());
      } else {
        r := Err(DbUpdateException);
      }
    }

    /** `Database.BeginTransactionAsync`: no transaction may be open already. */
    method BeginTransaction()
      requires database.snapshot.None?
      modifies database
      ensures database.tables == old(database.tables) && database.snapshot == Some(database.tables)
    {
      database.snapshot := Some(database.tables);
    }

    method CommitTransaction()
      requires database.snapshot.Some?
      modifies database
      ensures database.tables == old(database.tables) && database.snapshot == None
    {
      database.snapshot := None;
    }

    /** Rolling back restores the tables the transaction began with; the context keeps tracking what it tracked. */
    method RollbackTransaction()
      requires database.snapshot.Some?
      modifies database
      ensures database.tables == old(database.snapshot.value) && database.snapshot == None
    {
      database.tables := database.snapshot.value;
      database.snapshot := None;
    }

    method AddUser(u: User)
      modifies this
      ensures tracked == old(tracked).(users := old(tracked.users) + [u])
    {
      tracked := tracked.(users := tracked.users + [u]);
    }

    method AddRefreshToken(row: RefreshToken)
      modifies this
      ensures tracked == old(tracked).(refreshTokens := old(tracked.refreshTokens) + [row])
    {
      tracked := tracked.(refreshTokens := tracked.refreshTokens + [row]);
    }

    /** `Add` of an entity the context already tracks leaves it tracked as it is. */
    method ReAddRefreshToken(row: RefreshToken)
      requires row in tracked.refreshTokens
    {
    }

    /** `storedRefreshToken.Revoked = at` on the tracked row `i`. */
    method RevokeRefreshToken(i: nat, at: Time)
      requires i < |tracked.refreshTokens|
      modifies this
      ensures tracked == old(tracked).(refreshTokens := Revoke(old(tracked.refreshTokens), i, at))
    {
      tracked := tracked.(refreshTokens := Revoke(tracked.refreshTokens, i, at));
    }

    method AddOrder(o: Order)
      modifies this
      ensures tracked == old(tracked).(orders := old(tracked.orders) + [o])
    {
      tracked := tracked.(orders := tracked.orders + [o]);
    }

    /** Assignments to the columns of the tracked order `i`. */
    method SetOrder(i: nat, o: Order)
      requires i < |tracked.orders| && o.id == tracked.orders[i].id
      modifies this
      ensures tracked == old(tracked).(orders := old(tracked.orders)[i := o])
    {
      tracked := tracked.(orders := tracked.orders[i := o]);
    }

    method RemoveOrder(i: nat)
      requires i < |tracked.orders|
      modifies this
      ensures tracked == old(tracked).(orders := RemoveAt(old(tracked.orders), i))
    {
      tracked := tracked.(orders := RemoveAt(tracked.orders, i));
    }

    /**
     * `RefreshTokens.Where(rt => rt.UserId == userId).ExecuteDeleteAsync()`:
     * deletes in the database at once, without SaveChanges, so later queries
     * through this context no longer return the deleted rows. (The change
     * tracker itself is bypassed: entries it already held stay in it.)
     */
    method DeleteTokensOf(userId: Guid)
      modifies this, database
      ensures tracked == old(tracked).(refreshTokens := TokensNotOf(old(tracked.refreshTokens), userId))
      ensures database.tables == old(database.tables).(refreshTokens := TokensNotOf(old(database.tables.refreshTokens), userId))
      ensures database.snapshot == old(database.snapshot)
    {
      tracked := tracked.(refreshTokens := TokensNotOf(tracked.refreshTokens, userId));
      database.tables := database.tables.(refreshTokens := TokensNotOf(database.tables.refreshTokens, userId));
    }
  }
}
