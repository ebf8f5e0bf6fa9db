/**
 * The message queue, as the outbox the order service appends to. The broker
 * behind `PublishOrderCreatedAsync` either accepts a message or the call
 * throws; whether it accepts is a parameter.
 */
module Messaging {
  import opened Results
  import opened Entities

  class MessageQueue {
    /** The messages the broker has accepted, oldest first. */
    var published: seq<OrderCreatedMessage>

    constructor()
      ensures published == []
    {
      published := [];
    }

    method Publish(m: OrderCreatedMessage, accepted: bool) returns (r: Result<()>)
      modifies this
      ensures r.Ok? <==> accepted
      ensures r.Err? ==> r.error == BrokerException
      ensures published == if accepted then old(published) + [m] else old(published)
    {
      if accepted {
        published := published + [m];
        r := Ok(());
      } else {
        r := Err(BrokerException);
      }
    }
  }
}

/**
 * `OrderService`: create, list, read, update, delete and change the status
 * of a user's orders. Every lookup is guarded by the pair (order Id, owner
 * Id), so a user never reaches another user's order.
 */
module OrderSpec {
  import opened Results
  import opened Guids
  import opened Entities
  import opened Store
  import Seqs

  /** The order `CreateOrderAsync` builds; its Id comes from the entity's `Guid.NewGuid` initializer. */
  function NewOrder(dto: OrderDto, userId: Guid, now: Time, orderId: Guid): Order
  {
    Order(orderId, dto.title, dto.description, now, Created, userId)
  }

  function CreatedMessage(o: Order): OrderCreatedMessage
  {
    OrderCreatedMessage(o.id, o.userId, o.createdAt, o.title)
  }

  /**
   * `CreateOrderAsync`: in a transaction, add and save the order, publish its
   * message, and commit; a failed save or publish rolls the tables back. The
   * third component is the message the broker accepted, if any.
   */
  function CreateOrder(s: Scope, dto: OrderDto, userId: Guid, now: Time, orderId: Guid, brokerAccepts: bool)
    : (Result<Guid>, Scope, Option<OrderCreatedMessage>)
  {
    var order := NewOrder(dto, userId, now, orderId);
    var (saved, s1) := SaveChanges(s.(tracked := s.tracked.(orders := s.tracked.orders + [order])));
    if saved.Err? then (Err(saved.error), Scope(s1.tracked, s.stored), None)
    else if !brokerAccepts then (Err(BrokerException), Scope(s1.tracked, s.stored), None)
    else (Ok(order.id), s1, Some(CreatedMessage(order)))
  }

  /** The `Select` projection both queries apply; the status is written by its name. */
  function Response(o: Order): OrderResponse
  {
    OrderResponse(o.id, o.title, o.description, o.createdAt, StatusName(o.status))
  }

  /** `GetAllOrdersAsync`: the projections of the owner's orders, in table order. */
  function GetAllOrders(t: Tables, userId: Guid): seq<OrderResponse>
  {
    var mine := OrdersOf(t.orders, userId);
    seq(|mine|, i requires 0 <= i < |mine| => Response(mine[i]))
  }

  /** `GetOrderByIdAsync`: the projection of the first order with this Id and owner, or null. */
  function GetOrderById(t: Tables, orderId: Guid, userId: Guid): Option<OrderResponse>
  {
    var i := OrderMatch(t.orders, orderId, userId);
    if i < |t.orders| then Some(Response(t.orders[i])) else None
  }

  /** The three mutations share the guard: find the order by (Id, owner), or throw "Order not found". */
  function NotFound(): Exception
  {
    GeneralException("Order not found")
  }

  /** `UpdateOrderAsync`: overwrite the title and the description, then save. */
  function UpdateOrder(s: Scope, dto: OrderDto, orderId: Guid, userId: Guid): (Result<()>, Scope)
  {
    var orders := s.tracked.orders;
    var i := OrderMatch(orders, orderId, userId);
    if i == |orders| then (Err(NotFound()), s)
    else SaveChanges(s.(tracked := s.tracked.(orders := orders[i := orders[i].(title := dto.title, description := dto.description)])))
  }

  /** `DeleteOrderAsync`: remove the order, then save. */
  function DeleteOrder(s: Scope, orderId: Guid, userId: Guid): (Result<()>, Scope)
  {
    var orders := s.tracked.orders;
    var i := OrderMatch(orders, orderId, userId);
    if i == |orders| then (Err(NotFound()), s)
    else SaveChanges(s.(tracked := s.tracked.(orders := RemoveAt(orders, i))))
  }

  /** `SetOrderStatusAsync`: overwrite the status, then save. */
  function SetOrderStatus(s: Scope, orderId: Guid, userId: Guid, status: OrderStatus): (Result<()>, Scope)
  {
    var orders := s.tracked.orders;
    var i := OrderMatch(orders, orderId, userId);
    if i == |orders| then (Err(NotFound()), s)
    else SaveChanges(s.(tracked := s.tracked.(orders := orders[i := orders[i].(status := status)])))
  }

  /** Some order has this Id and this owner. */
  predicate Owns(t: Tables, orderId: Guid, userId: Guid)
  {
    exists j :: 0 <= j < |t.orders| && t.orders[j].id == orderId && t.orders[j].userId == userId
  }

  /** The index of that order. */
  function Target(t: Tables, orderId: Guid, userId: Guid): nat
  {
    OrderMatch(t.orders, orderId, userId)
  }

  /**
   * On a store that satisfies its key constraints, Create succeeds exactly
   * when the broker accepts and the new Id is unused. It then stores one new
   * order with the given title, description and owner, status Created and
   * creation time `now`, returns its Id, and publishes one message naming
   * that order, owner and title; otherwise it stores and publishes nothing.
   */
  lemma CreateOrderEffect(t: Tables, dto: OrderDto, userId: Guid, now: Time, orderId: Guid, brokerAccepts: bool)
    requires KeysUnique(t)
    ensures var (r, s1, message) := CreateOrder(Fresh(t), dto, userId, now, orderId, brokerAccepts);
      var order := NewOrder(dto, userId, now, orderId);
      && (r.Ok? <==> brokerAccepts && orderId !in Seqs.Keys(t.orders, OrderKey))
      && (r.Ok? ==>
            && r.value == orderId
            && s1.stored == t.(orders := t.orders + [order])
            && KeysUnique(s1.stored)
            && order.title == dto.title && order.description == dto.description
            && order.userId == userId && order.status == Created && order.createdAt == now
            && message == Some(OrderCreatedMessage(orderId, userId, now, dto.title)))
      && (r.Err? ==> s1.stored == t && message == None)
  {
    AddOrderKeys(t, NewOrder(dto, userId, now, orderId));
  }

  /** A created order is then found by its Id and owner, with status "Created". */
  lemma CreateThenGet(t: Tables, dto: OrderDto, userId: Guid, now: Time, orderId: Guid)
    requires KeysUnique(t)
    requires CreateOrder(Fresh(t), dto, userId, now, orderId, true).0.Ok?
    ensures var t1 := CreateOrder(Fresh(t), dto, userId, now, orderId, true).1.stored;
      GetOrderById(t1, orderId, userId) == Some(OrderResponse(orderId, dto.title, dto.description, now, "Created"))
  {
    CreateOrderEffect(t, dto, userId, now, orderId, true);
    var order := NewOrder(dto, userId, now, orderId);
    var t1 := t.(orders := t.orders + [order]);
    assert orderId !in Seqs.Keys(t.orders, OrderKey);
    assert forall j :: 0 <= j < |t.orders| ==> t1.orders[j].id != orderId;
    assert t1.orders[|t.orders|] == order;
  }

  /**
   * `GetAllOrdersAsync(u)` lists exactly the owner's orders: every order of
   * `u` appears, in table order, and nothing else does.
   */
  lemma GetAllOrdersExactlyOwn(t: Tables, userId: Guid)
    ensures var r := GetAllOrders(t, userId);
      && |r| == |OrdersOf(t.orders, userId)|
      && (forall i :: 0 <= i < |r| ==> r[i] == Response(OrdersOf(t.orders, userId)[i]))
      && (forall o :: o in t.orders && o.userId == userId ==> Response(o) in r)
      && (forall x :: x in r ==> exists o :: o in t.orders && o.userId == userId && x == Response(o))
  {
    var mine := OrdersOf(t.orders, userId);
    var r := GetAllOrders(t, userId);
    forall o | o in t.orders && o.userId == userId ensures Response(o) in r {
      var i :| 0 <= i < |mine| && mine[i] == o;
      assert r[i] == Response(o);
    }
    forall x | x in r ensures exists o :: o in t.orders && o.userId == userId && x == Response(o) {
      var i :| 0 <= i < |r| && r[i] == x;
      assert mine[i] in mine;
    }
  }

  /** Orders of other users never reach the list. */
  lemma {:induction false} GetAllOrdersIgnoresOthers(t: Tables, userId: Guid, o: Order)
    requires o.userId != userId
    ensures GetAllOrders(t.(orders := t.orders + [o]), userId) == GetAllOrders(t, userId)
  {
    FilterAppendRejected(t.orders, o, (x: Order) => x.userId == userId);
  }

  /** Appending an element the filter rejects leaves the filtered sequence as it was. */
  lemma {:induction false} FilterAppendRejected<T>(s: seq<T>, x: T, p: T -> bool)
    requires !p(x)
    ensures Seqs.Filter(s + [x], p) == Seqs.Filter(s, p)
  {
    if s == [] {
      assert [x][1..] == [];
    } else {
      assert (s + [x])[1..] == s[1..] + [x];
      FilterAppendRejected(s[1..], x, p);
    }
  }

  /**
   * `GetOrderByIdAsync` returns null exactly when no order has both the Id
   * and the owner, and otherwise the projection of such an order; on a store
   * whose keys are unique, an order owned by someone else is never returned.
   */
  lemma GetOrderByIdScoped(t: Tables, orderId: Guid, userId: Guid)
    ensures GetOrderById(t, orderId, userId).None? <==> !Owns(t, orderId, userId)
    ensures GetOrderById(t, orderId, userId).Some? ==>
      exists o :: o in t.orders && o.id == orderId && o.userId == userId && GetOrderById(t, orderId, userId).value == Response(o)
    ensures KeysUnique(t) && (exists j :: 0 <= j < |t.orders| && t.orders[j].id == orderId && t.orders[j].userId != userId) ==>
      GetOrderById(t, orderId, userId).None?
  {
    var i := OrderMatch(t.orders, orderId, userId);
    if i < |t.orders| {
      assert t.orders[i] in t.orders;
    }
    if KeysUnique(t) && (exists j :: 0 <= j < |t.orders| && t.orders[j].id == orderId && t.orders[j].userId != userId) {
      var j :| 0 <= j < |t.orders| && t.orders[j].id == orderId && t.orders[j].userId != userId;
      forall k | 0 <= k < |t.orders| && t.orders[k].id == orderId ensures k == j {
        assert OrderKey(t.orders[k]) == OrderKey(t.orders[j]);
      }
    }
  }

  /**
   * On a store that satisfies its key constraints, Update succeeds exactly
   * when the user owns the order; it then changes only that order's title and
   * description, and otherwise throws "Order not found" with no change.
   */
  lemma UpdateOrderEffect(t: Tables, dto: OrderDto, orderId: Guid, userId: Guid)
    requires KeysUnique(t)
    ensures var (r, s1) := UpdateOrder(Fresh(t), dto, orderId, userId);
      var i := Target(t, orderId, userId);
      && (r.Ok? <==> Owns(t, orderId, userId))
      && (r.Ok? ==>
            && i < |t.orders|
            && |s1.stored.orders| == |t.orders|
            && s1.stored.orders[i] == t.orders[i].(title := dto.title, description := dto.description)
            && (forall j :: 0 <= j < |t.orders| && j != i ==> s1.stored.orders[j] == t.orders[j])
            && s1.stored.users == t.users && s1.stored.refreshTokens == t.refreshTokens
            && KeysUnique(s1.stored))
      && (r.Err? ==> r.error == GeneralException("Order not found") && s1 == Fresh(t))
  {
    var i := Target(t, orderId, userId);
    if i < |t.orders| {
      UpdateOrderKeys(t, i, t.orders[i].(title := dto.title, description := dto.description));
    }
  }

  /** After an update, reading the order back gives the new title and description and nothing else new. */
  lemma UpdateThenGet(t: Tables, dto: OrderDto, orderId: Guid, userId: Guid)
    requires KeysUnique(t) && Owns(t, orderId, userId)
    ensures var t1 := UpdateOrder(Fresh(t), dto, orderId, userId).1.stored;
      var before := GetOrderById(t, orderId, userId);
      && before.Some?
      && GetOrderById(t1, orderId, userId) == Some(before.value.(title := dto.title, description := dto.description))
  {
    UpdateOrderEffect(t, dto, orderId, userId);
    var i := Target(t, orderId, userId);
    var t1 := UpdateOrder(Fresh(t), dto, orderId, userId).1.stored;
    assert forall j :: 0 <= j < |t.orders| ==> t1.orders[j].id == t.orders[j].id && t1.orders[j].userId == t.orders[j].userId;
    assert OrderMatch(t1.orders, orderId, userId) == i;
  }

  /**
   * On a store that satisfies its key constraints, Delete succeeds exactly
   * when the user owns the order; it then removes that order and keeps every
   * other, and otherwise throws "Order not found" with no change.
   */
  lemma DeleteOrderEffect(t: Tables, orderId: Guid, userId: Guid)
    requires KeysUnique(t)
    ensures var (r, s1) := DeleteOrder(Fresh(t), orderId, userId);
      && (r.Ok? <==> Owns(t, orderId, userId))
      && (r.Ok? ==>
            && s1.stored == t.(orders := RemoveAt(t.orders, Target(t, orderId, userId)))
            && (forall o :: o in s1.stored.orders <==> o in t.orders && o.id != orderId)
            && GetOrderById(s1.stored, orderId, userId).None?
            && KeysUnique(s1.stored))
      && (r.Err? ==> r.error == GeneralException("Order not found") && s1 == Fresh(t))
  {
    var i := Target(t, orderId, userId);
    if i < |t.orders| {
      RemoveOrderKeys(t, i);
      var rest := RemoveAt(t.orders, i);
      assert forall j :: 0 <= j < |rest| ==> rest[j] == t.orders[if j < i then j else j + 1];
      forall o | o in t.orders && o.id != orderId ensures o in rest {
        var j :| 0 <= j < |t.orders| && t.orders[j] == o;
        assert j != i;
        assert rest[if j < i then j else j - 1] == o;
      }
      forall o | o in rest ensures o in t.orders && o.id != orderId {
        var j :| 0 <= j < |rest| && rest[j] == o;
        var k := if j < i then j else j + 1;
        assert t.orders[k] == o && k != i;
        assert OrderKey(t.orders[k]) != OrderKey(t.orders[i]);
      }
    }
  }

  /**
   * On a store that satisfies its key constraints, SetStatus succeeds exactly
   * when the user owns the order; it then changes only that order's status,
   * and otherwise throws "Order not found" with no change.
   */
  lemma SetOrderStatusEffect(t: Tables, orderId: Guid, userId: Guid, status: OrderStatus)
    requires KeysUnique(t)
    ensures var (r, s1) := SetOrderStatus(Fresh(t), orderId, userId, status);
      var i := Target(t, orderId, userId);
      && (r.Ok? <==> Owns(t, orderId, userId))
      && (r.Ok? ==>
            && i < |t.orders|
            && |s1.stored.orders| == |t.orders|
            && s1.stored.orders[i] == t.orders[i].(status := status)
            && (forall j :: 0 <= j < |t.orders| && j != i ==> s1.stored.orders[j] == t.orders[j])
            && s1.stored.users == t.users && s1.stored.refreshTokens == t.refreshTokens
            && KeysUnique(s1.stored)
            && GetOrderById(s1.stored, orderId, userId).value.status == StatusName(status))
      && (r.Err? ==> r.error == GeneralException("Order not found") && s1 == Fresh(t))
  {
    var i := Target(t, orderId, userId);
    if i < |t.orders| {
      var t1 := t.(orders := t.orders[i := t.orders[i].(status := status)]);
      UpdateOrderKeys(t, i, t.orders[i].(status := status));
      assert forall j :: 0 <= j < |t.orders| ==> t1.orders[j].id == t.orders[j].id && t1.orders[j].userId == t.orders[j].userId;
      assert OrderMatch(t1.orders, orderId, userId) == i;
    }
  }
}

module OrderServices {
  import opened Results
  import opened Guids
  import opened Entities
  import opened Store
  import opened Persistence
  import opened Messaging
  import OrderSpec

  class OrderService {
    const queue: MessageQueue
    const db: AppDbContext

    constructor(queue: MessageQueue, db: AppDbContext)
      ensures this.queue == queue && this.db == db
    {
      this.queue := queue;
      this.db := db;
    }

    /** The order's Id and whether the broker accepts the message are given by the caller. */
    method CreateOrder(dto: OrderDto, userId: Guid, now: Time, orderId: Guid, brokerAccepts: bool) returns (r: Result<Guid>)
      requires db.database.snapshot.None?
      modifies db, db.database, queue
      ensures var (spec, scope, message) := OrderSpec.CreateOrder(old(db.Current()), dto, userId, now, orderId, brokerAccepts);
        && r == spec && db.Current() == scope
        && queue.published == old(queue.published) + (if message.Some? then [message.value] else [])
      ensures db.database.snapshot.None?
    {
      var order := OrderSpec.NewOrder(dto, userId, now, orderId);
      db.BeginTransaction();
      db.AddOrder(order);
      var saved := db.SaveChanges();
      if saved.Err? {
        db.RollbackTransaction();
        return Err(saved.error);
      }
      var message := OrderSpec.CreatedMessage(order);
      var sent := queue.Publish(message, brokerAccepts);
      if sent.Err? {
        db.RollbackTransaction();
        return Err(sent.error);
      }
      db.CommitTransaction();
      r := Ok(order.id);
    }

    method UpdateOrder(dto: OrderDto, orderId: Guid, userId: Guid) returns (r: Result<()>)
      modifies db, db.database
      ensures (r, db.Current()) == OrderSpec.UpdateOrder(old(db.Current()), dto, orderId, userId)
      ensures db.database.snapshot == old(db.database.snapshot)
    {
      var i := OrderMatch(db.tracked.orders, orderId, userId);
      if i == |db.tracked.orders| {
        return Err(OrderSpec.NotFound());
      }
      var order := db.tracked.orders[i];
      db.SetOrder(i, order.(title := dto.title, description := dto.description));
      r := db.SaveChanges();
    }

    method DeleteOrder(orderId: Guid, userId: Guid) returns (r: Result<()>)
      modifies db, db.database
      ensures (r, db.Current()) == OrderSpec.DeleteOrder(old(db.Current()), orderId, userId)
      ensures db.database.snapshot == old(db.database.snapshot)
    {
      var i := OrderMatch(db.tracked.orders, orderId, userId);
      if i == |db.tracked.orders| {
        return Err(OrderSpec.NotFound());
      }
      db.RemoveOrder(i);
      r := db.SaveChanges();
    }

    method SetOrderStatus(orderId: Guid, userId: Guid, status: OrderStatus) returns (r: Result<()>)
      modifies db, db.database
      ensures (r, db.Current()) == OrderSpec.SetOrderStatus(old(db.Current()), orderId, userId, status)
      ensures db.database.snapshot == old(db.database.snapshot)
    {
      var i := OrderMatch(db.tracked.orders, orderId, userId);
      if i == |db.tracked.orders| {
        return Err(OrderSpec.NotFound());
      }
      var order := db.tracked.orders[i];
      db.SetOrder(i, order.(status := status));
      r := db.SaveChanges();
    }
  }
}
